/** String tests the importers use in place of regular expressions: anchored
    prefix tests, "a literal followed by digits" searches, splitting on a
    separator character, fixed-width digit fields and file-name shapes. */
module Text {
  import opened Wrappers

  predicate IsDigit(c: char) {
    '0' <= c <= '9'
  }

  predicate AllDigits(s: string) {
    forall i :: 0 <= i < |s| ==> IsDigit(s[i])
  }

  /** A field inside an all-digit prefix is all digits. */
  lemma AllDigitsWithin(s: string, n: nat, i: nat, j: nat)
    requires n <= |s| && AllDigits(s[..n]) && i <= j <= n
    ensures AllDigits(s[i..j])
  {
    forall k | 0 <= k < j - i ensures IsDigit(s[i..j][k]) {
      assert s[i..j][k] == s[..n][i + k];
    }
  }

  predicate StartsWith(s: string, prefix: string) {
    |prefix| <= |s| && s[..|prefix|] == prefix
  }

  predicate EndsWith(s: string, suffix: string) {
    |suffix| <= |s| && s[|s| - |suffix|..] == suffix
  }

  predicate StartsWithAny(s: string, prefixes: seq<string>) {
    exists i :: 0 <= i < |prefixes| && StartsWith(s, prefixes[i])
  }

  /** ASCII lower-casing of one character. */
  function LowerChar(c: char): char {
    if 'A' <= c <= 'Z' then (c as int + 32) as char else c
  }

  function Lower(s: string): (r: string)
    ensures |r| == |s|
    ensures forall i :: 0 <= i < |s| ==> r[i] == LowerChar(s[i])
  {
    seq(|s|, i requires 0 <= i < |s| => LowerChar(s[i]))
  }

  /** Case-insensitive equality (ASCII letters). */
  predicate EqualsIgnoringCase(s: string, t: string) {
    Lower(s) == Lower(t)
  }

  function DigitValue(c: char): (n: nat)
    requires IsDigit(c)
    ensures n <= 9
  {
    c as int - '0' as int
  }

  /** The value of a two-digit decimal field. */
  function TwoDigits(s: string): (n: nat)
    requires |s| == 2 && AllDigits(s)
    ensures n <= 99
  {
    10 * DigitValue(s[0]) + DigitValue(s[1])
  }

  /** The value of a four-digit decimal field. */
  function FourDigits(s: string): (n: nat)
    requires |s| == 4 && AllDigits(s)
    ensures n <= 9999
  {
    100 * TwoDigits(s[..2]) + TwoDigits(s[2..])
  }

  // ---------------------------------------------------------------------
  // "<tag><digits>" searches

  /** `tag` occurs in `s` at index `i` and is immediately followed by a digit. */
  predicate TaggedAt(s: string, tag: string, i: int) {
    0 <= i && i + |tag| < |s| && s[i..i + |tag|] == tag && IsDigit(s[i + |tag|])
  }

  /** The leftmost index at or after `from` where `tag` followed by a digit occurs. */
  function FindTagged(s: string, tag: string, from: nat): (r: Option<nat>)
    ensures r.Some? ==> from <= r.value && TaggedAt(s, tag, r.value)
    ensures r.Some? ==> forall j :: from <= j < r.value ==> !TaggedAt(s, tag, j)
    ensures r.None? ==> forall j :: from <= j ==> !TaggedAt(s, tag, j)
    decreases |s| - from
  {
    if from + |tag| >= |s| then None
    else if TaggedAt(s, tag, from) then Some(from)
    else FindTagged(s, tag, from + 1)
  }

  /** The end of the maximal run of digits that starts at `k`. */
  function DigitRunEnd(s: string, k: nat): (e: nat)
    requires k <= |s|
    ensures k <= e <= |s|
    ensures AllDigits(s[k..e])
    ensures e < |s| ==> !IsDigit(s[e])
    decreases |s| - k
  {
    if k < |s| && IsDigit(s[k]) then DigitRunEnd(s, k + 1) else k
  }

  /** The digits of the first occurrence of `tag` followed by one or more digits,
      taken greedily: what the first match of the regular expression
      `<tag>\d+` contributes after the tag. */
  function FirstTaggedNumber(s: string, tag: string): (r: Option<string>)
    ensures r.Some? <==> exists i :: TaggedAt(s, tag, i)
    ensures r.Some? ==> r.value != [] && AllDigits(r.value)
    ensures r.Some? ==> exists i :: && TaggedAt(s, tag, i)
                                    && (forall j :: 0 <= j < i ==> !TaggedAt(s, tag, j))
                                    && StartsWith(s[i + |tag|..], r.value)
                                    && (i + |tag| + |r.value| < |s| ==> !IsDigit(s[i + |tag| + |r.value|]))
  {
    match FindTagged(s, tag, 0)
    case None => None
    case Some(i) =>
      var k := i + |tag|;
      var e := DigitRunEnd(s, k);
      assert s[k..][..e - k] == s[k..e];
      Some(s[k..e])
  }

  // ---------------------------------------------------------------------
  // Splitting on a separator character

  /** The fields of `s` between occurrences of `sep`, like splitting a string
      on a one-character separator: always at least one field. */
  function Split(s: string, sep: char): (fields: seq<string>)
    ensures |fields| >= 1
    ensures forall i :: 0 <= i < |fields| ==> sep !in fields[i]
    decreases |s|
  {
    if |s| == 0 then [""]
    else
      var rest := Split(s[1..], sep);
      if s[0] == sep then [""] + rest
      else [[s[0]] + rest[0]] + rest[1..]
  }

  /** Fields glued back together with the separator between them. */
  function Join(fields: seq<string>, sep: char): string
    requires |fields| >= 1
    decreases |fields|
  {
    if |fields| == 1 then fields[0] else fields[0] + [sep] + Join(fields[1..], sep)
  }

  /** Joining the fields of a split gives back the original string. */
  lemma {:induction false} JoinSplit(s: string, sep: char)
    ensures Join(Split(s, sep), sep) == s
    decreases |s|
  {
    if |s| > 0 {
      var rest := Split(s[1..], sep);
      JoinSplit(s[1..], sep);
      if s[0] == sep {
        assert Split(s, sep) == [""] + rest;
        assert ([""] + rest)[1..] == rest;
      } else {
        var fields := Split(s, sep);
        assert fields == [[s[0]] + rest[0]] + rest[1..];
        if |rest| == 1 {
          assert Join(fields, sep) == [s[0]] + rest[0];
        } else {
          assert fields[1..] == rest[1..];
          assert Join(rest, sep) == rest[0] + [sep] + Join(rest[1..], sep);
        }
      }
    }
  }

  /** Splitting a field that holds no separator yields that field alone. */
  lemma {:induction false} SplitNoSeparator(s: string, sep: char)
    requires sep !in s
    ensures Split(s, sep) == [s]
    decreases |s|
  {
    if |s| > 0 {
      SplitNoSeparator(s[1..], sep);
      assert [s[0]] + s[1..] == s;
    }
  }

  /** A leading separator-free field is split off as the first field. */
  lemma {:induction false} SplitFirstField(a: string, sep: char, b: string)
    requires sep !in a
    ensures Split(a + [sep] + b, sep) == [a] + Split(b, sep)
    decreases |a|
  {
    if |a| == 0 {
      assert a + [sep] + b == [sep] + b;
      assert ([sep] + b)[1..] == b;
    } else {
      var s := a + [sep] + b;
      assert s[0] == a[0];
      assert s[1..] == a[1..] + [sep] + b;
      SplitFirstField(a[1..], sep, b);
      assert [a[0]] + a[1..] == a;
    }
  }

  // ---------------------------------------------------------------------
  // File-name shapes: a regular expression made of literal characters,
  // `\d` and `.` only, matched against the whole name.

  datatype Token = Lit(c: char) | Digit | AnyButNewline

  predicate Accepts(t: Token, c: char) {
    match t
    case Lit(l) => c == l
    case Digit => IsDigit(c)
    case AnyButNewline => c != '\n'
  }

  /** `s` matches `shape` character for character. */
  predicate Fits(s: string, shape: seq<Token>) {
    |s| == |shape| && forall i :: 0 <= i < |s| ==> Accepts(shape[i], s[i])
  }

  /** A `^shape$` match: `$` also accepts a single newline ending the string. */
  predicate FitsToEnd(s: string, shape: seq<Token>) {
    Fits(s, shape) || (|s| > 0 && s[|s| - 1] == '\n' && Fits(s[..|s| - 1], shape))
  }

  function Literal(s: string): (t: seq<Token>)
    ensures |t| == |s|
    ensures forall i :: 0 <= i < |s| ==> t[i] == Lit(s[i])
  {
    seq(|s|, i requires 0 <= i < |s| => Lit(s[i]))
  }

  function Digits(n: nat): (t: seq<Token>)
    ensures |t| == n
    ensures forall i :: 0 <= i < n ==> t[i] == Digit
  {
    seq(n, i => Digit)
  }

  /** Loosening the first token after `pre` to "any character but a newline"
      admits the string with the character there replaced; when that token
      is a literal, a string with another character there no longer fits the
      strict shape. */
  lemma WildcardFits(s: string, pre: seq<Token>, post: seq<Token>, c: char)
    requires Fits(s, pre + post) && |post| > 0 && c != '\n'
    ensures Fits(s[..|pre|] + [c] + s[|pre| + 1..], pre + [AnyButNewline] + post[1..])
    ensures post[0].Lit? && c != post[0].c ==> !Fits(s[..|pre|] + [c] + s[|pre| + 1..], pre + post)
  {
    var bad := s[..|pre|] + [c] + s[|pre| + 1..];
    var strict := pre + post;
    var loose := pre + [AnyButNewline] + post[1..];
    forall i | 0 <= i < |bad| ensures Accepts(loose[i], bad[i]) {
      if i != |pre| {
        assert loose[i] == strict[i] && bad[i] == s[i];
        assert Accepts(strict[i], s[i]);
      }
    }
    assert strict[|pre|] == post[0] && bad[|pre|] == c;
  }

  /** A name of shape `stem` followed by `.ext`, with its dot replaced by any
      character but a newline, fits the shape whose dot is a wildcard. When
      the replacement is not a dot, the name neither fits the strict shape nor
      ends in `.ext`. */
  lemma DotWildcard(s: string, stem: seq<Token>, ext: string, c: char)
    requires Fits(s, stem + Literal("." + ext)) && c != '\n'
    ensures FitsToEnd(s[..|stem|] + [c] + s[|stem| + 1..], stem + [AnyButNewline] + Literal(ext))
    ensures c != '.' ==> !Fits(s[..|stem|] + [c] + s[|stem| + 1..], stem + Literal("." + ext))
    ensures c != '.' ==> !EndsWith(s[..|stem|] + [c] + s[|stem| + 1..], "." + ext)
  {
    var post := Literal("." + ext);
    assert post[1..] == Literal(ext);
    WildcardFits(s, stem, post, c);
    var bad := s[..|stem|] + [c] + s[|stem| + 1..];
    assert bad[|bad| - |"." + ext|..][0] == bad[|stem|] == c;
  }

  /** Loosening the dot before `ext` to "any character but a newline" keeps
      every name that fit the strict shape. */
  lemma DotWildcardKeeps(s: string, stem: seq<Token>, ext: string)
    requires Fits(s, stem + Literal("." + ext))
    ensures FitsToEnd(s, stem + [AnyButNewline] + Literal(ext))
  {
    var strict := stem + Literal("." + ext);
    var loose := stem + [AnyButNewline] + Literal(ext);
    forall i | 0 <= i < |s| ensures Accepts(loose[i], s[i]) {
      assert Accepts(strict[i], s[i]);
      if i == |stem| {
        assert strict[i] == Lit('.');
      } else if i > |stem| {
        assert loose[i] == Lit(ext[i - |stem| - 1]) == strict[i];
      } else {
        assert loose[i] == stem[i] == strict[i];
      }
    }
  }

  /** Fitting is compositional: pieces that fit their shapes, joined, fit
      the joined shapes. */
  lemma FitsConcat(a: string, sa: seq<Token>, b: string, sb: seq<Token>)
    requires Fits(a, sa) && Fits(b, sb)
    ensures Fits(a + b, sa + sb)
  {
    forall i | 0 <= i < |a + b| ensures Accepts((sa + sb)[i], (a + b)[i]) {
      if i >= |a| {
        assert (sa + sb)[i] == sb[i - |a|] && (a + b)[i] == b[i - |a|];
      }
    }
  }

  lemma LiteralFits(s: string)
    ensures Fits(s, Literal(s))
  {
  }

  lemma DigitsFit(s: string)
    requires AllDigits(s)
    ensures Fits(s, Digits(|s|))
  {
  }

}
