/** Contact extraction and output normalisation (utils.py): the
    post-processing of regular-expression matches, text cleanup, the
    output record and its template-driven normalisation. The matches
    themselves (`re.findall`) are inputs. */
module Utils {

  import opened Text
  import opened Values
  import opened Seqs

  // ----------------------------------------------------------------------
  // Matches and extractors

  /** The `re.findall` results of the contact patterns on one text. */
  datatype ContactMatches = ContactMatches(
    emails: seq<string>,      // email_pattern, case-insensitive
    github: seq<string>,      // github_pattern
    linkedin: seq<string>,    // linkedin_pattern
    websites: seq<string>,    // personal_website_pattern
    phones: seq<string>)      // phone_pattern

  /** The key that makes email addresses equal regardless of case. */
  function EmailKey(email: string): string { Lower(email) }

  /** The key under which URLs are compared: the URL itself. */
  function UrlKey(url: string): string { url }

  /** `extract_emails`: the matches with case-insensitive duplicates
      removed, each kept with the casing and at the place of its first
      occurrence. */
  method ExtractEmails(found: seq<string>) returns (emails: seq<string>)
    ensures emails == KeepFirst(found, EmailKey)
  {
    var seen: set<string> := {};
    emails := [];
    var i := 0;
    while i < |found|
      invariant 0 <= i <= |found|
      invariant emails == KeepFirst(found[..i], EmailKey)
      invariant seen == Keys(found[..i], EmailKey)
    {
      assert found[..i + 1][..i] == found[..i];
      KeysAppend(found[..i], found[i], EmailKey);
      if EmailKey(found[i]) !in seen {
        seen := seen + {EmailKey(found[i])};
        emails := emails + [found[i]];
      }
      i := i + 1;
    }
    assert found[..i] == found;
  }

  /** What `extract_emails` promises: no two results are equal ignoring
      case, every result is the first match of its address, every address
      matched is present, and the results keep the order of the matches. */
  lemma EmailsDistinctFirstSeen(found: seq<string>)
    ensures var r := KeepFirst(found, EmailKey);
      && (forall i, j :: 0 <= i < j < |r| ==> Lower(r[i]) != Lower(r[j]))
      && (forall i :: 0 <= i < |r| ==>
            exists k :: 0 <= k < |found| && IsFirstWithKey(found, EmailKey, k) && r[i] == found[k])
      && (forall k :: 0 <= k < |found| && IsFirstWithKey(found, EmailKey, k) ==> found[k] in r)
      && IsSubsequence(r, found)
  {
    KeepFirstDistinct(found, EmailKey);
    KeepFirstIsFirsts(found, EmailKey);
    KeepFirstSubsequence(found, EmailKey);
  }

  /** `extract_github_and_linkedin_urls`: the GitHub matches followed by
      the LinkedIn matches, exact duplicates removed. */
  method ExtractGithubAndLinkedinUrls(github: seq<string>, linkedin: seq<string>) returns (urls: seq<string>)
    ensures urls == KeepFirst(github + linkedin, UrlKey)
  {
    var all := github + linkedin;
    var seen: set<string> := {};
    urls := [];
    var i := 0;
    while i < |all|
      invariant 0 <= i <= |all|
      invariant urls == KeepFirst(all[..i], UrlKey)
      invariant seen == Keys(all[..i], UrlKey)
    {
      assert all[..i + 1][..i] == all[..i];
      KeysAppend(all[..i], all[i], UrlKey);
      if all[i] !in seen {
        seen := seen + {all[i]};
        urls := urls + [all[i]];
      }
      i := i + 1;
    }
    assert all[..i] == all;
  }

  /** The GitHub and LinkedIn URLs come out without repetition, every
      distinct URL once, the GitHub ones first. */
  lemma ProfileUrlsDistinctInOrder(github: seq<string>, linkedin: seq<string>)
    ensures var r := KeepFirst(github + linkedin, UrlKey);
      && (forall i, j :: 0 <= i < j < |r| ==> r[i] != r[j])
      && (forall u :: u in r <==> u in github || u in linkedin)
      && IsSubsequence(r, github + linkedin)
      && KeepFirst(github, UrlKey) <= r
  {
    var all := github + linkedin;
    var r := KeepFirst(all, UrlKey);
    KeepFirstDistinct(all, UrlKey);
    KeepFirstKeys(all, UrlKey);
    KeepFirstSubsequence(all, UrlKey);
    forall u ensures u in r <==> u in github || u in linkedin {
      assert u in r <==> UrlKey(u) in Keys(r, UrlKey);
      assert u in all <==> UrlKey(u) in Keys(all, UrlKey);
    }
    KeepFirstPrefix(github, linkedin, UrlKey);
  }

  /** Keeping first occurrences of `a + b` starts with doing so for `a`. */
  lemma {:induction false} KeepFirstPrefix(a: seq<string>, b: seq<string>, key: string -> string)
    ensures KeepFirst(a, key) <= KeepFirst(a + b, key)
    decreases |b|
  {
    if b == [] {
      assert a + b == a;
    } else {
      var b0 := b[..|b| - 1];
      assert (a + b)[..|a + b| - 1] == a + b0;
      KeepFirstPrefix(a, b0, key);
    }
  }

  /** The sites `extract_personal_urls` never reports. */
  const CommonDomains: seq<string> := ["facebook.com", "twitter.com", "instagram.com", "youtube.com"]

  /** A URL that mentions none of the common domains. */
  predicate IsPersonalSite(url: string) {
    !ContainsAny(url, CommonDomains)
  }

  /** `extract_personal_urls`: the website matches that mention no common
      domain, exact duplicates removed, in order. */
  method ExtractPersonalUrls(websites: seq<string>) returns (urls: seq<string>)
    ensures urls == KeepFirst(Filter(websites, IsPersonalSite), UrlKey)
  {
    var seen: set<string> := {};
    urls := [];
    var i := 0;
    while i < |websites|
      invariant 0 <= i <= |websites|
      invariant urls == KeepFirst(Filter(websites[..i], IsPersonalSite), UrlKey)
      invariant seen == Keys(Filter(websites[..i], IsPersonalSite), UrlKey)
    {
      var url := websites[i];
      assert websites[..i + 1][..i] == websites[..i];
      var kept := Filter(websites[..i], IsPersonalSite);
      if IsPersonalSite(url) {
        assert Filter(websites[..i + 1], IsPersonalSite) == kept + [url];
        assert (kept + [url])[..|kept|] == kept;
        KeysAppend(kept, url, UrlKey);
        if url !in seen {
          seen := seen + {url};
          urls := urls + [url];
        }
      }
      i := i + 1;
    }
    assert websites[..i] == websites;
  }

  /** No personal URL mentions a common domain, none repeats, and every
      other website match is among them. */
  lemma PersonalUrlsFiltered(websites: seq<string>)
    ensures var r := KeepFirst(Filter(websites, IsPersonalSite), UrlKey);
      && (forall i :: 0 <= i < |r| ==>
            (!Contains(r[i], "facebook.com") && !Contains(r[i], "twitter.com")
             && !Contains(r[i], "instagram.com") && !Contains(r[i], "youtube.com")))
      && (forall i, j :: 0 <= i < j < |r| ==> r[i] != r[j])
      && (forall u :: u in r <==> u in websites && IsPersonalSite(u))
      && IsSubsequence(r, websites)
  {
    var f := Filter(websites, IsPersonalSite);
    var r := KeepFirst(f, UrlKey);
    FilterMembers(websites, IsPersonalSite);
    KeepFirstKeys(f, UrlKey);
    KeepFirstDistinct(f, UrlKey);
    KeepFirstSubsequence(f, UrlKey);
    SubsequenceTransitive(r, f, websites);
    forall u ensures u in r <==> u in f {
      assert u in r <==> UrlKey(u) in Keys(r, UrlKey);
      assert u in f <==> UrlKey(u) in Keys(f, UrlKey);
    }
    forall i | 0 <= i < |r|
      ensures !Contains(r[i], "facebook.com") && !Contains(r[i], "twitter.com")
           && !Contains(r[i], "instagram.com") && !Contains(r[i], "youtube.com")
    {
      assert r[i] in f;
      assert !Contains(r[i], CommonDomains[0]) && !Contains(r[i], CommonDomains[1])
          && !Contains(r[i], CommonDomains[2]) && !Contains(r[i], CommonDomains[3]);
    }
  }

  lemma {:induction false} SubsequenceTransitive(a: seq<string>, b: seq<string>, c: seq<string>)
    requires IsSubsequence(a, b) && IsSubsequence(b, c)
    ensures IsSubsequence(a, c)
    decreases |c|
  {
    if a != [] {
      assert b != [] && c != [];
      if b[0] == c[0] && IsSubsequence(b[1..], c[1..]) {
        if a[0] == b[0] && IsSubsequence(a[1..], b[1..]) {
          SubsequenceTransitive(a[1..], b[1..], c[1..]);
        } else {
          SubsequenceTransitive(a, b[1..], c[1..]);
        }
      } else {
        SubsequenceTransitive(a, b, c[1..]);
      }
    }
  }

  // ----------------------------------------------------------------------
  // Phone numbers

  /** The characters `[-.\s()]` that `extract_phone_numbers` removes. */
  predicate IsPhoneSeparator(c: char) {
    c == '-' || c == '.' || IsSpace(c) || c == '(' || c == ')'
  }

  predicate NotPhoneSeparator(c: char) { !IsPhoneSeparator(c) }

  /** `re.sub(r'[-.\s()]', '', s)`: the characters of `s` other than
      separators, all of them and in order. */
  function RemovePhoneSeparators(s: string): (r: string)
    ensures |r| <= |s|
    ensures forall i :: 0 <= i < |r| ==> !IsPhoneSeparator(r[i])
    ensures r == KeepChars(s, NotPhoneSeparator)
    decreases |s|
  {
    if s == [] then []
    else
      var init := RemovePhoneSeparators(s[..|s| - 1]);
      assert s == s[..|s| - 1] + [s[|s| - 1]];
      KeepCharsAppend(s[..|s| - 1], [s[|s| - 1]], NotPhoneSeparator);
      if IsPhoneSeparator(s[|s| - 1]) then init else init + [s[|s| - 1]]
  }

  /** A character survives separator removal exactly when it occurs in the
      match and is not a separator. */
  lemma RemovePhoneSeparatorsMembers(s: string)
    ensures forall c :: c in RemovePhoneSeparators(s) <==> c in s && !IsPhoneSeparator(c)
  {
    KeepCharsMembers(s, NotPhoneSeparator);
  }

  /** One cleaned match: separators removed, then stripped; the strip has
      nothing left to remove. */
  function CleanPhone(s: string): (r: string)
    ensures r == RemovePhoneSeparators(s)
  {
    var removed := RemovePhoneSeparators(s);
    StripStripped(removed);
    Strip(removed)
  }

  /** Every match, cleaned. */
  function CleanAll(found: seq<string>): (r: seq<string>)
    ensures |r| == |found| && forall i :: 0 <= i < |found| ==> r[i] == CleanPhone(found[i])
  {
    seq(|found|, i requires 0 <= i < |found| => CleanPhone(found[i]))
  }

  lemma CleanAllAppend(a: seq<string>, b: seq<string>)
    ensures CleanAll(a + b) == CleanAll(a) + CleanAll(b)
  {
  }

  /** `len(cleaned) >= 10` */
  predicate IsPhoneLength(s: string) { |s| >= 10 }

  /** The cleaned matches at least ten characters long, in order. */
  function PhoneNumbers(found: seq<string>): seq<string> {
    Filter(CleanAll(found), IsPhoneLength)
  }

  /** `extract_phone_numbers` */
  method ExtractPhoneNumbers(found: seq<string>) returns (phones: seq<string>)
    ensures phones == PhoneNumbers(found)
  {
    phones := [];
    var i := 0;
    while i < |found|
      invariant 0 <= i <= |found|
      invariant phones == Filter(CleanAll(found[..i]), IsPhoneLength)
    {
      var cleaned := CleanPhone(found[i]);
      assert found[..i + 1] == found[..i] + [found[i]];
      CleanAllAppend(found[..i], [found[i]]);
      FilterAppend(CleanAll(found[..i]), [cleaned], IsPhoneLength);
      if |cleaned| >= 10 {
        phones := phones + [cleaned];
      }
      i := i + 1;
    }
    assert found[..i] == found;
  }

  /** Each phone number is a match with the separators removed, at least
      ten characters long; every such cleaned match is reported. */
  lemma PhoneNumbersMembers(found: seq<string>)
    ensures forall x :: x in PhoneNumbers(found) <==>
      exists i :: 0 <= i < |found| && x == RemovePhoneSeparators(found[i]) && |x| >= 10
    ensures forall x :: x in PhoneNumbers(found) ==>
      |x| >= 10 && forall j :: 0 <= j < |x| ==> !IsPhoneSeparator(x[j])
  {
    var c := CleanAll(found);
    FilterMembers(c, IsPhoneLength);
    forall x ensures x in c <==> exists i :: 0 <= i < |found| && x == RemovePhoneSeparators(found[i]) {
      if x in c {
        var i :| 0 <= i < |c| && c[i] == x;
        assert x == RemovePhoneSeparators(found[i]);
      }
      if exists i :: 0 <= i < |found| && x == RemovePhoneSeparators(found[i]) {
        var i :| 0 <= i < |found| && x == RemovePhoneSeparators(found[i]);
        assert c[i] == x;
      }
    }
  }

  /** There is no de-duplication: the phone numbers of two lists of
      matches are those of the first followed by those of the second. */
  lemma PhoneNumbersAppend(a: seq<string>, b: seq<string>)
    ensures PhoneNumbers(a + b) == PhoneNumbers(a) + PhoneNumbers(b)
  {
    CleanAllAppend(a, b);
    FilterAppend(CleanAll(a), CleanAll(b), IsPhoneLength);
  }

  /** One match of `phone_pattern`: the text of its optional first group,
      `(\+?\d{1,3}[-.\s]?)?` (empty when the group does not take part), and
      the rest, ten digits among optional parentheses and separators. */
  datatype PhoneMatch = PhoneMatch(countryCode: string, number: string)

  function DigitCount(s: string): nat
    decreases |s|
  {
    if s == [] then 0 else DigitCount(s[..|s| - 1]) + (if IsDigit(s[|s| - 1]) then 1 else 0)
  }

  predicate IsPhoneMatch(m: PhoneMatch) {
    |m.countryCode| <= 5
    && (forall i :: 0 <= i < |m.number| ==> IsDigit(m.number[i]) || IsPhoneSeparator(m.number[i]))
    && DigitCount(m.number) == 10
  }

  /** What `re.findall(phone_pattern, ...)` returns: the pattern has one
      capture group, so each match contributes only that group's text. */
  function GroupCaptures(ms: seq<PhoneMatch>): (r: seq<string>)
    ensures |r| == |ms| && forall i :: 0 <= i < |ms| ==> r[i] == ms[i].countryCode
  {
    seq(|ms|, i requires 0 <= i < |ms| => ms[i].countryCode)
  }

  /** What a pattern whose group does not capture returns: each whole
      match. */
  function WholeMatches(ms: seq<PhoneMatch>): (r: seq<string>)
    ensures |r| == |ms| && forall i :: 0 <= i < |ms| ==> r[i] == ms[i].countryCode + ms[i].number
  {
    seq(|ms|, i requires 0 <= i < |ms| => ms[i].countryCode + ms[i].number)
  }

  lemma {:induction false} DigitsSurviveRemoval(s: string)
    ensures |RemovePhoneSeparators(s)| >= DigitCount(s)
    decreases |s|
  {
    if s != [] {
      DigitsSurviveRemoval(s[..|s| - 1]);
    }
  }

  lemma {:induction false} RemovalOfAppend(a: string, b: string)
    ensures RemovePhoneSeparators(a + b) == RemovePhoneSeparators(a) + RemovePhoneSeparators(b)
    decreases |b|
  {
    if b == [] {
      assert a + b == a;
    } else {
      var b0 := b[..|b| - 1];
      assert (a + b)[..|a + b| - 1] == a + b0;
      assert (a + b)[|a + b| - 1] == b[|b| - 1];
      RemovalOfAppend(a, b0);
    }
  }

  /** As written, `extract_phone_numbers` reports no phone number at all:
      the captured group is at most five characters long, so no cleaned
      result reaches the length of ten. */
  lemma PhoneGroupCapturesAlwaysDropped(ms: seq<PhoneMatch>)
    requires forall i :: 0 <= i < |ms| ==> IsPhoneMatch(ms[i])
    ensures PhoneNumbers(GroupCaptures(ms)) == []
  {
    var c := CleanAll(GroupCaptures(ms));
    forall i | 0 <= i < |c| ensures !IsPhoneLength(c[i]) {
      assert |c[i]| <= |ms[i].countryCode|;
    }
    FilterNone(c, IsPhoneLength);
  }

  /** With whole matches, every phone number is kept, cleaned, in order. */
  lemma PhoneWholeMatchesKept(ms: seq<PhoneMatch>)
    requires forall i :: 0 <= i < |ms| ==> IsPhoneMatch(ms[i])
    ensures PhoneNumbers(WholeMatches(ms)) == CleanAll(WholeMatches(ms))
    ensures |PhoneNumbers(WholeMatches(ms))| == |ms|
  {
    var c := CleanAll(WholeMatches(ms));
    forall i | 0 <= i < |c| ensures IsPhoneLength(c[i]) {
      RemovalOfAppend(ms[i].countryCode, ms[i].number);
      DigitsSurviveRemoval(ms[i].number);
    }
    FilterAll(c, IsPhoneLength);
  }

  // ----------------------------------------------------------------------
  // Text cleanup

  /** `re.sub(r'\s+', ' ', s)`: every run of whitespace becomes one space.
      No two neighbouring characters of the result are whitespace, the
      result starts with whitespace exactly when `s` does, and the other
      characters of `s` all survive, in order. */
  function CollapseWhitespace(s: string): (r: string)
    ensures forall c :: c in r ==> IsSpace(c) ==> c == ' '
    ensures forall c :: c in r ==> c == ' ' || c in s
    ensures r == [] <==> s == []
    ensures r != [] ==> (IsSpace(r[0]) <==> IsSpace(s[0]))
    ensures forall i :: 0 <= i < |r| - 1 ==> !(IsSpace(r[i]) && IsSpace(r[i + 1]))
    ensures KeepChars(r, NotSpace) == KeepChars(s, NotSpace)
    decreases |s|
  {
    if s == [] then []
    else if IsSpace(s[0]) then
      TrimStartFacts(s[1..]);
      TrimStartKeeps(s[1..]);
      var rest := TrimStart(s[1..]);
      assert forall c :: c in rest ==> c in s;
      var tail := CollapseWhitespace(rest);
      assert ([' '] + tail)[1..] == tail;
      [' '] + tail
    else
      var tail := CollapseWhitespace(s[1..]);
      assert forall c :: c in s[1..] ==> c in s;
      assert ([s[0]] + tail)[1..] == tail;
      [s[0]] + tail
  }

  predicate IsAscii(c: char) { c as int < 0x80 }

  /** An ASCII character other than the plain space. */
  predicate AsciiNotBlank(c: char) { IsAscii(c) && c != ' ' }

  predicate NotBlank(c: char) { c != ' ' }

  /** An ASCII character other than whitespace. */
  predicate AsciiNotSpace(c: char) { IsAscii(c) && !IsSpace(c) }

  function SkipNonAscii(s: string): (r: string)
    ensures |r| <= |s| && r == s[|s| - |r|..]
    ensures KeepChars(r, AsciiNotBlank) == KeepChars(s, AsciiNotBlank)
    decreases |s|
  {
    if s != [] && !IsAscii(s[0]) then SkipNonAscii(s[1..]) else s
  }

  /** `re.sub(r'[^\x00-\x7F]+', ' ', s)`: every run of non-ASCII
      characters becomes one space, so the characters of the result other
      than spaces are exactly the ASCII ones of `s` other than spaces, in
      order. */
  function ReplaceNonAscii(s: string): (r: string)
    ensures forall c :: c in r ==> IsAscii(c)
    ensures forall c :: c in r ==> c == ' ' || c in s
    ensures r == [] <==> s == []
    ensures KeepChars(r, NotBlank) == KeepChars(s, AsciiNotBlank)
    decreases |s|
  {
    if s == [] then []
    else if !IsAscii(s[0]) then
      var rest := SkipNonAscii(s[1..]);
      assert forall c :: c in rest ==> c in s;
      var tail := ReplaceNonAscii(rest);
      assert ([' '] + tail)[1..] == tail;
      [' '] + tail
    else
      var tail := ReplaceNonAscii(s[1..]);
      assert forall c :: c in s[1..] ==> c in s;
      assert ([s[0]] + tail)[1..] == tail;
      [s[0]] + tail
  }

  /** `clean_text_content`: whitespace runs become single spaces, non-ASCII
      runs become spaces, and the ends are stripped. The substitution of
      `\n\s*\n` between the two steps finds no newline left and is the
      identity, so it has no counterpart here. The result holds only ASCII
      characters, its only whitespace is the plain space, and it neither
      starts nor ends with whitespace. */
  function CleanTextContent(text: string): (r: string)
    ensures forall c :: c in r ==> IsAscii(c) && (IsSpace(c) ==> c == ' ')
    ensures '\n' !in r
    ensures r == [] || (!IsSpace(r[0]) && !IsSpace(r[|r| - 1]))
  {
    var collapsed := CollapseWhitespace(text);
    var ascii := ReplaceNonAscii(collapsed);
    assert forall c :: c in ascii ==> IsAscii(c) && (IsSpace(c) ==> c == ' ');
    var r := Strip(ascii);
    StripIsPiece(ascii);
    r
  }

  /** The ASCII characters of `s` other than whitespace are the ASCII ones
      among its characters other than whitespace. */
  lemma {:induction false} AsciiNotSpaceSplit(s: string)
    ensures KeepChars(s, AsciiNotSpace) == KeepChars(KeepChars(s, NotSpace), IsAscii)
    decreases |s|
  {
    if s != [] {
      AsciiNotSpaceSplit(s[1..]);
      var head := if NotSpace(s[0]) then [s[0]] else [];
      KeepCharsAppend(head, KeepChars(s[1..], NotSpace), IsAscii);
    }
  }

  /** Cleaning keeps every ASCII character of the text that is not
      whitespace, in order, and adds none: what the result holds besides
      its single spaces is exactly those characters. */
  lemma CleanTextKeeps(text: string)
    ensures KeepChars(CleanTextContent(text), NotSpace) == KeepChars(text, AsciiNotSpace)
  {
    var collapsed := CollapseWhitespace(text);
    var ascii := ReplaceNonAscii(collapsed);
    StripKeeps(ascii);
    assert forall i :: 0 <= i < |ascii| ==> ascii[i] in ascii;
    KeepCharsSame(ascii, NotSpace, NotBlank);
    assert forall i :: 0 <= i < |collapsed| ==> collapsed[i] in collapsed;
    KeepCharsSame(collapsed, AsciiNotBlank, AsciiNotSpace);
    AsciiNotSpaceSplit(collapsed);
    AsciiNotSpaceSplit(text);
  }

  // ----------------------------------------------------------------------
  // extract_all_contact_info

  /** The four lists `extract_all_contact_info` returns. */
  datatype ContactDetails = ContactDetails(
    emails: seq<string>,
    githubLinkedinUrls: seq<string>,
    personalUrls: seq<string>,
    phoneNumbers: seq<string>)

  /** `extract_all_contact_info(content)` on the matches of its content. */
  method ExtractAllContactInfo(m: ContactMatches) returns (r: ContactDetails)
    ensures r.emails == KeepFirst(m.emails, EmailKey)
    ensures r.githubLinkedinUrls == KeepFirst(m.github + m.linkedin, UrlKey)
    ensures r.personalUrls == KeepFirst(Filter(m.websites, IsPersonalSite), UrlKey)
    ensures r.phoneNumbers == PhoneNumbers(m.phones)
  {
    var emails := ExtractEmails(m.emails);
    var profiles := ExtractGithubAndLinkedinUrls(m.github, m.linkedin);
    var personal := ExtractPersonalUrls(m.websites);
    var phones := ExtractPhoneNumbers(m.phones);
    r := ContactDetails(emails, profiles, personal, phones);
  }
}
