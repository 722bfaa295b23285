/** The string operations the resume parser takes from Python's `str`:
    letter case at ASCII level, whitespace as Python's `str.isspace` defines
    it, `strip`, `split` with and without a separator, and the substring
    test `sub in s`. */
module Text {

  /** `c.isspace()`: also the characters `\s`, `str.strip()` and
      `str.split()` treat as whitespace. */
  predicate IsSpace(c: char) {
    c == ' ' || ('\t' <= c <= '\r') || ('\U{1C}' <= c <= '\U{1F}')
    || c == '\U{85}' || c == '\U{A0}' || c == '\U{1680}'
    || ('\U{2000}' <= c <= '\U{200A}') || c == '\U{2028}' || c == '\U{2029}'
    || c == '\U{202F}' || c == '\U{205F}' || c == '\U{3000}'
  }

  predicate IsUpper(c: char) { 'A' <= c <= 'Z' }
  predicate IsLower(c: char) { 'a' <= c <= 'z' }
  predicate IsCased(c: char) { IsUpper(c) || IsLower(c) }
  predicate IsDigit(c: char) { '0' <= c <= '9' }

  function ToLower(c: char): char {
    if IsUpper(c) then (c as int + 32) as char else c
  }

  function ToUpper(c: char): char {
    if IsLower(c) then (c as int - 32) as char else c
  }

  /** `s.lower()` */
  function Lower(s: string): string {
    seq(|s|, i requires 0 <= i < |s| => ToLower(s[i]))
  }

  /** `s.title()`: a letter right after a letter becomes lower case, every
      other letter upper case. */
  function Title(s: string): string {
    seq(|s|, i requires 0 <= i < |s| =>
      if i > 0 && IsCased(s[i - 1]) then ToLower(s[i]) else ToUpper(s[i]))
  }

  /** The letter at `i` is cased as `title` would case it: upper case only
      when no letter precedes it, lower case only when one does. */
  predicate TitleCasedAt(s: string, i: int)
    requires 0 <= i < |s|
  {
    (IsUpper(s[i]) ==> i == 0 || !IsCased(s[i - 1])) &&
    (IsLower(s[i]) ==> i > 0 && IsCased(s[i - 1]))
  }

  /** `s.istitle()`: some letter occurs and every letter is cased as
      `title` would case it. */
  predicate IsTitle(s: string) {
    (exists i :: 0 <= i < |s| && IsCased(s[i])) &&
    forall i :: 0 <= i < |s| ==> TitleCasedAt(s, i)
  }

  lemma TitleCharFixed(s: string, i: int)
    requires 0 <= i < |s|
    ensures Title(s)[i] == s[i] <==> TitleCasedAt(s, i)
  {
  }

  /** `istitle` holds exactly of the strings with a letter that `title`
      leaves unchanged. */
  lemma {:induction false} IsTitleIffTitleFixed(s: string)
    ensures IsTitle(s) <==> (exists i :: 0 <= i < |s| && IsCased(s[i])) && Title(s) == s
  {
    var t := Title(s);
    if forall i :: 0 <= i < |s| ==> TitleCasedAt(s, i) {
      forall i | 0 <= i < |s| ensures t[i] == s[i] {
        TitleCharFixed(s, i);
      }
      assert t == s;
    }
    if t == s {
      forall i | 0 <= i < |s| ensures TitleCasedAt(s, i) {
        TitleCharFixed(s, i);
      }
    }
  }

  /** `s.title()` is a fixed point of `title`, and lower-casing it gives
      the same string as lower-casing `s`. */
  lemma {:induction false} TitleIdempotent(s: string)
    ensures Title(Title(s)) == Title(s)
    ensures Lower(Title(s)) == Lower(s)
  {
    var t := Title(s);
    forall i | 0 <= i < |s| ensures Title(t)[i] == t[i] {
      assert IsCased(t[i]) == IsCased(s[i]);
      if i > 0 {
        assert IsCased(t[i - 1]) == IsCased(s[i - 1]);
      }
    }
    assert Title(t) == t;
    forall i | 0 <= i < |s| ensures Lower(t)[i] == Lower(s)[i] {
    }
    assert Lower(t) == Lower(s);
  }

  /** `s.lstrip()` */
  function TrimStart(s: string): string
    decreases |s|
  {
    if s != [] && IsSpace(s[0]) then TrimStart(s[1..]) else s
  }

  /** `lstrip` removes exactly the leading whitespace. */
  lemma {:induction false} TrimStartFacts(s: string)
    ensures var r := TrimStart(s);
      |r| <= |s| && r == s[|s| - |r|..]
      && (forall i :: 0 <= i < |s| - |r| ==> IsSpace(s[i]))
      && (r != [] ==> !IsSpace(r[0]))
    decreases |s|
  {
    if s != [] && IsSpace(s[0]) {
      TrimStartFacts(s[1..]);
    }
  }

  /** `s.rstrip()` */
  function TrimEnd(s: string): string
    decreases |s|
  {
    if s != [] && IsSpace(s[|s| - 1]) then TrimEnd(s[..|s| - 1]) else s
  }

  /** `rstrip` removes exactly the trailing whitespace. */
  lemma {:induction false} TrimEndFacts(s: string)
    ensures var r := TrimEnd(s);
      |r| <= |s| && r == s[..|r|]
      && (forall i :: |r| <= i < |s| ==> IsSpace(s[i]))
      && (r != [] ==> !IsSpace(r[|r| - 1]))
    decreases |s|
  {
    if s != [] && IsSpace(s[|s| - 1]) {
      TrimEndFacts(s[..|s| - 1]);
    }
  }

  /** `r` is the piece of `s` at offset `k` and everything of `s` around
      it is whitespace. */
  predicate StrippedAt(s: string, r: string, k: int) {
    0 <= k <= |s| - |r| && r == s[k..k + |r|]
    && (forall i :: 0 <= i < k ==> IsSpace(s[i]))
    && (forall i :: k + |r| <= i < |s| ==> IsSpace(s[i]))
  }

  /** `s.strip()`: it neither starts nor ends with whitespace. */
  function Strip(s: string): (r: string)
    ensures r == [] || (!IsSpace(r[0]) && !IsSpace(r[|r| - 1]))
    ensures |r| <= |s|
  {
    TrimStartFacts(s);
    TrimEndFacts(TrimStart(s));
    TrimEnd(TrimStart(s))
  }

  /** What `strip` removes: the result is the piece of `s` between two
      runs of whitespace, empty exactly when `s` is all whitespace, and
      made of characters of `s`. */
  lemma StripIsPiece(s: string)
    ensures exists k :: StrippedAt(s, Strip(s), k)
    ensures Strip(s) == [] <==> forall i :: 0 <= i < |s| ==> IsSpace(s[i])
    ensures forall c :: c in Strip(s) ==> c in s
  {
    var t := TrimStart(s);
    var r := TrimEnd(t);
    TrimStartFacts(s);
    TrimEndFacts(t);
    var k := |s| - |t|;
    assert r == s[k..k + |r|];
    forall i | k + |r| <= i < |s| ensures IsSpace(s[i]) {
      assert s[i] == t[i - k];
    }
    assert Strip(s) == r;
    assert StrippedAt(s, r, k);
    assert forall i :: 0 <= i < |r| ==> r[i] == s[k + i];
  }

  /** Stripping a string that neither starts nor ends with whitespace
      changes nothing. */
  lemma StripStripped(s: string)
    requires s == [] || (!IsSpace(s[0]) && !IsSpace(s[|s| - 1]))
    ensures Strip(s) == s
  {
  }

  /** The characters of `s` that satisfy `p`, in order. */
  function KeepChars(s: string, p: char -> bool): string
    decreases |s|
  {
    if s == [] then [] else (if p(s[0]) then [s[0]] else []) + KeepChars(s[1..], p)
  }

  predicate NotSpace(c: char) { !IsSpace(c) }

  lemma {:induction false} KeepCharsAppend(a: string, b: string, p: char -> bool)
    ensures KeepChars(a + b, p) == KeepChars(a, p) + KeepChars(b, p)
    decreases |a|
  {
    if a == [] {
      assert a + b == b;
    } else {
      assert (a + b)[1..] == a[1..] + b;
      KeepCharsAppend(a[1..], b, p);
    }
  }

  lemma {:induction false} KeepCharsNone(s: string, p: char -> bool)
    requires forall i :: 0 <= i < |s| ==> !p(s[i])
    ensures KeepChars(s, p) == []
    decreases |s|
  {
    if s != [] {
      KeepCharsNone(s[1..], p);
    }
  }

  /** A character is kept exactly when it occurs in `s` and passes `p`. */
  lemma {:induction false} KeepCharsMembers(s: string, p: char -> bool)
    ensures forall c :: c in KeepChars(s, p) <==> c in s && p(c)
    decreases |s|
  {
    if s != [] {
      KeepCharsMembers(s[1..], p);
      assert s == [s[0]] + s[1..];
    }
  }

  /** Two tests that agree on every character of `s` keep the same
      characters. */
  lemma {:induction false} KeepCharsSame(s: string, p: char -> bool, q: char -> bool)
    requires forall i :: 0 <= i < |s| ==> p(s[i]) == q(s[i])
    ensures KeepChars(s, p) == KeepChars(s, q)
    decreases |s|
  {
    if s != [] {
      KeepCharsSame(s[1..], p, q);
    }
  }

  /** `lstrip` removes no character other than whitespace. */
  lemma TrimStartKeeps(s: string)
    ensures KeepChars(TrimStart(s), NotSpace) == KeepChars(s, NotSpace)
  {
    TrimStartFacts(s);
    var k := |s| - |TrimStart(s)|;
    assert s == s[..k] + TrimStart(s);
    KeepCharsAppend(s[..k], TrimStart(s), NotSpace);
    KeepCharsNone(s[..k], NotSpace);
  }

  /** `strip` removes no character other than whitespace. */
  lemma StripKeeps(s: string)
    ensures KeepChars(Strip(s), NotSpace) == KeepChars(s, NotSpace)
  {
    StripIsPiece(s);
    var r := Strip(s);
    var k :| StrippedAt(s, r, k);
    var pre, post := s[..k], s[k + |r|..];
    assert s == pre + r + post;
    KeepCharsAppend(pre + r, post, NotSpace);
    KeepCharsAppend(pre, r, NotSpace);
    KeepCharsNone(pre, NotSpace);
    assert forall i :: 0 <= i < |post| ==> post[i] == s[k + |r| + i];
    KeepCharsNone(post, NotSpace);
  }

  /** `s.split(sep)` for a one-character separator: the pieces between
      separators, always at least one. */
  function Split(s: string, sep: char): (r: seq<string>)
    ensures |r| >= 1
    ensures forall i :: 0 <= i < |r| ==> sep !in r[i]
    decreases |s|
  {
    if s == [] then [""]
    else
      var rest := Split(s[1..], sep);
      if s[0] == sep then [""] + rest
      else [[s[0]] + rest[0]] + rest[1..]
  }

  /** `sep.join(parts)` */
  function Join(parts: seq<string>, sep: char): string
    decreases |parts|
  {
    if parts == [] then ""
    else if |parts| == 1 then parts[0]
    else parts[0] + [sep] + Join(parts[1..], sep)
  }

  /** Joining the pieces of a split with the separator gives back the
      string. */
  lemma {:induction false} JoinSplit(s: string, sep: char)
    ensures Join(Split(s, sep), sep) == s
    decreases |s|
  {
    if s != [] {
      var rest := Split(s[1..], sep);
      JoinSplit(s[1..], sep);
      if s[0] == sep {
        assert Split(s, sep) == [""] + rest;
      } else {
        var r := Split(s, sep);
        assert r == [[s[0]] + rest[0]] + rest[1..];
        if |rest| == 1 {
          assert Join(r, sep) == [s[0]] + rest[0];
        } else {
          assert Join(rest, sep) == rest[0] + [sep] + Join(rest[1..], sep);
          assert r[1..] == rest[1..];
          assert Join(r, sep) == ([s[0]] + rest[0]) + [sep] + Join(rest[1..], sep);
        }
        assert s == [s[0]] + s[1..];
      }
    }
  }

  /** Splitting a string that has no separator gives just that string. */
  lemma {:induction false} SplitNoSeparator(a: string, sep: char)
    requires sep !in a
    ensures Split(a, sep) == [a]
    decreases |a|
  {
    if a != [] {
      SplitNoSeparator(a[1..], sep);
      assert a == [a[0]] + a[1..];
    }
  }

  /** A separator-free piece followed by the separator splits off as the
      first piece. */
  lemma {:induction false} SplitFirstPiece(a: string, sep: char, b: string)
    requires sep !in a
    ensures Split(a + [sep] + b, sep) == [a] + Split(b, sep)
    decreases |a|
  {
    if a == [] {
      assert a + [sep] + b == [sep] + b;
      assert ([sep] + b)[1..] == b;
    } else {
      var s := a + [sep] + b;
      assert s[1..] == a[1..] + [sep] + b;
      SplitFirstPiece(a[1..], sep, b);
      assert a == [a[0]] + a[1..];
    }
  }

  /** Splitting the join of separator-free pieces gives back the pieces. */
  lemma {:induction false} SplitJoin(parts: seq<string>, sep: char)
    requires |parts| >= 1
    requires forall i :: 0 <= i < |parts| ==> sep !in parts[i]
    ensures Split(Join(parts, sep), sep) == parts
    decreases |parts|
  {
    if |parts| == 1 {
      SplitNoSeparator(parts[0], sep);
    } else {
      SplitJoin(parts[1..], sep);
      SplitFirstPiece(parts[0], sep, Join(parts[1..], sep));
      assert parts == [parts[0]] + parts[1..];
    }
  }

  /** The longest prefix of `s` without whitespace. */
  function TakeWord(s: string): (w: string)
    ensures |w| <= |s| && w == s[..|w|]
    ensures forall i :: 0 <= i < |w| ==> !IsSpace(w[i])
    ensures |w| < |s| ==> IsSpace(s[|w|])
    decreases |s|
  {
    if s == [] || IsSpace(s[0]) then [] else [s[0]] + TakeWord(s[1..])
  }

  /** `s.split()`: the maximal runs of non-whitespace characters. */
  function Words(s: string): (r: seq<string>)
    ensures forall i :: 0 <= i < |r| ==> r[i] != []
    ensures forall i, j :: 0 <= i < |r| && 0 <= j < |r[i]| ==> !IsSpace(r[i][j])
    decreases |s|
  {
    TrimStartFacts(s);
    var t := TrimStart(s);
    if t == [] then []
    else
      var w := TakeWord(t);
      [w] + Words(t[|w|..])
  }

  /** `sub in s` for strings. */
  predicate Contains(s: string, sub: string)
    decreases |s|
  {
    |sub| <= |s| && (s[..|sub|] == sub || (s != [] && Contains(s[1..], sub)))
  }

  /** `sub` occurs in `s` at position `i`. */
  predicate OccursAt(s: string, sub: string, i: int) {
    0 <= i <= |s| - |sub| && s[i..i + |sub|] == sub
  }

  /** The recursive substring test agrees with "occurs at some position". */
  lemma {:induction false} ContainsIffOccurs(s: string, sub: string)
    ensures Contains(s, sub) <==> exists i :: OccursAt(s, sub, i)
    decreases |s|
  {
    if |sub| <= |s| && s != [] {
      ContainsIffOccurs(s[1..], sub);
      if s[..|sub|] == sub {
        assert OccursAt(s, sub, 0);
      }
      if Contains(s[1..], sub) {
        var i :| OccursAt(s[1..], sub, i);
        assert OccursAt(s, sub, i + 1);
      }
      if exists i :: OccursAt(s, sub, i) {
        var i :| OccursAt(s, sub, i);
        if i > 0 {
          assert OccursAt(s[1..], sub, i - 1);
        } else {
          assert s[0..|sub|] == s[..|sub|];
        }
      }
    } else if |sub| <= |s| {
      assert OccursAt(s, sub, 0) ==> Contains(s, sub);
    }
  }

  /** A string contains each of its pieces. */
  lemma ContainsPiece(s: string, i: int, j: int)
    requires 0 <= i <= j <= |s|
    ensures Contains(s, s[i..j])
  {
    ContainsIffOccurs(s, s[i..j]);
    assert OccursAt(s, s[i..j], i);
  }

  /** `any(term in s for term in terms)` */
  predicate ContainsAny(s: string, terms: seq<string>) {
    exists i :: 0 <= i < |terms| && Contains(s, terms[i])
  }
}
