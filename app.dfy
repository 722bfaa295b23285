/** The parsing path of the web front end (app.py) that needs no language
    model: the heuristic extractors for the candidate's name, skills and
    education, the manual record they are assembled into, and
    `parse_resume`, which picks between that record and the one the
    external resume parser produced and stamps it with parsing metadata.

    What the regular expressions match, what the document decoders return
    and what the external parser reports are inputs of the model. */
module App {

  import opened Text
  import opened Values
  import opened Seqs

  /** `s[:n]` */
  function Take(s: seq<string>, n: nat): (r: seq<string>)
    ensures |r| == (if |s| <= n then |s| else n)
    ensures r == s[..|r|]
  {
    if |s| <= n then s else s[..n]
  }

  // ----------------------------------------------------------------------
  // extract_name

  /** Words that disqualify a line as a name when they occur anywhere in
      it, also inside a longer word. */
  const NameDenylist: seq<string> :=
    ["resume", "cv", "curriculum", "vitae", "phone", "email", "linkedin"]

  /** Every word longer than one character is title cased. */
  predicate WordsTitleCased(words: seq<string>) {
    forall i :: 0 <= i < |words| && |words[i]| > 1 ==> IsTitle(words[i])
  }

  /** A stripped line that `extract_name` accepts as the candidate's name:
      not blank, none of the denylisted words in its lower case, two to four
      whitespace-separated words, and those words title cased. */
  predicate NameQualifies(line: string) {
    line != ""
    && !ContainsAny(Lower(line), NameDenylist)
    && 2 <= |Words(line)| <= 4
    && WordsTitleCased(Words(line))
  }

  /** The first line that qualifies once stripped, stripped; "" when none
      does. */
  function NameFrom(lines: seq<string>): string
    decreases |lines|
  {
    if lines == [] then ""
    else if NameQualifies(Strip(lines[0])) then Strip(lines[0])
    else NameFrom(lines[1..])
  }

  /** `extract_name`: only the first five lines are looked at. */
  function CandidateName(lines: seq<string>): string {
    NameFrom(Take(lines, 5))
  }

  method ExtractName(text: string) returns (name: string)
    ensures name == CandidateName(Split(text, '\n'))
  {
    var lines := Split(text, '\n');
    var head := Take(lines, 5);
    var i := 0;
    while i < |head|
      invariant 0 <= i <= |head|
      invariant NameFrom(head[i..]) == NameFrom(head)
    {
      assert head[i..][0] == head[i] && head[i..][1..] == head[i + 1..];
      var line := Strip(head[i]);
      if line != "" && !ContainsAny(Lower(line), NameDenylist) {
        var words := Words(line);
        if 2 <= |words| <= 4 && forall k :: 0 <= k < |words| && |words[k]| > 1 ==> IsTitle(words[k]) {
          return line;
        }
      }
      i := i + 1;
    }
    return "";
  }

  /** The name found is "" or the stripped form of a qualifying line, and
      that line is the first qualifying one. */
  lemma {:induction false} NameFromFirst(lines: seq<string>)
    ensures var r := NameFrom(lines);
      (r == "" <==> forall j :: 0 <= j < |lines| ==> !NameQualifies(Strip(lines[j])))
      && (r != "" ==> exists i :: 0 <= i < |lines| && r == Strip(lines[i]) && NameQualifies(r)
                                  && forall j :: 0 <= j < i ==> !NameQualifies(Strip(lines[j])))
    decreases |lines|
  {
    if lines != [] {
      var rest := lines[1..];
      NameFromFirst(rest);
      assert forall j :: 0 <= j < |rest| ==> rest[j] == lines[j + 1];
      var r := NameFrom(lines);
      if !NameQualifies(Strip(lines[0])) && r != "" {
        var i :| 0 <= i < |rest| && r == Strip(rest[i]) && NameQualifies(r)
                 && forall j :: 0 <= j < i ==> !NameQualifies(Strip(rest[j]));
        assert r == Strip(lines[i + 1]);
        forall j | 0 <= j < i + 1 ensures !NameQualifies(Strip(lines[j])) {
          if j > 0 {
            assert lines[j] == rest[j - 1];
          }
        }
      }
      if forall j :: 0 <= j < |rest| ==> !NameQualifies(Strip(rest[j])) {
        if !NameQualifies(Strip(lines[0])) {
          forall j | 0 <= j < |lines| ensures !NameQualifies(Strip(lines[j])) {
            if j > 0 {
              assert lines[j] == rest[j - 1];
            }
          }
        }
      }
    }
  }

  /** `extract_name` returns "" or the stripped form of one of the first
      five lines; a returned name is not blank, avoids the denylist, has two
      to four title-cased words, and no earlier line qualifies. */
  lemma CandidateNameFacts(lines: seq<string>)
    ensures var r := CandidateName(lines);
      (r == "" <==> forall j :: 0 <= j < |lines| && j < 5 ==> !NameQualifies(Strip(lines[j])))
      && (r != "" ==>
            !ContainsAny(Lower(r), NameDenylist) && 2 <= |Words(r)| <= 4
            && WordsTitleCased(Words(r))
            && exists i :: 0 <= i < |lines| && i < 5 && r == Strip(lines[i])
                           && forall j :: 0 <= j < i ==> !NameQualifies(Strip(lines[j])))
  {
    var head := Take(lines, 5);
    NameFromFirst(head);
    assert forall j :: 0 <= j < |head| ==> head[j] == lines[j];
  }

  /** Lines after the fifth never matter. */
  lemma CandidateNameIgnoresLaterLines(lines: seq<string>, more: seq<string>)
    requires |lines| >= 5
    ensures CandidateName(lines + more) == CandidateName(lines)
  {
    assert (lines + more)[..5] == lines[..5];
  }

  /** A blank line never qualifies, yet takes one of the five places. */
  lemma BlankLineSkipped(blank: string, lines: seq<string>)
    requires forall i :: 0 <= i < |blank| ==> IsSpace(blank[i])
    ensures CandidateName([blank] + lines) == NameFrom(Take(lines, 4))
  {
    StripIsPiece(blank);
    var all := [blank] + lines;
    assert Take(all, 5)[1..] == Take(lines, 4);
  }

  // ----------------------------------------------------------------------
  // extract_skills

  /** The skill terms `extract_skills` looks for, all in lower case. */
  const SkillVocabulary: seq<string> := [
    "python", "java", "javascript", "html", "css", "react", "angular", "vue",
    "node.js", "express", "django", "flask", "fastapi", "sql", "nosql",
    "mongodb", "postgresql", "mysql", "aws", "azure", "gcp", "docker",
    "kubernetes", "jenkins", "git", "github", "gitlab", "ci/cd",
    "machine learning", "ai", "data analysis", "pandas", "numpy",
    "tensorflow", "pytorch", "scikit-learn", "tableau", "power bi",
    "excel", "word", "powerpoint", "project management", "agile",
    "scrum", "jira", "confluence", "rest api", "graphql", "microservices"
  ]

  /** Identity key: `set` removes duplicates of the whole string. */
  function Itself(s: string): string { s }

  /** `found_skills` after the loop over `terms`: the title case of every
      term that occurs in `lowered`, in the order of `terms`. */
  function FoundSkills(lowered: string, terms: seq<string>): seq<string>
    decreases |terms|
  {
    if terms == [] then []
    else
      var init := FoundSkills(lowered, terms[..|terms| - 1]);
      var t := terms[|terms| - 1];
      if Contains(lowered, t) then init + [Title(t)] else init
  }

  /** `list(set(found_skills))`. A Python set has no defined order; the
      model keeps the first occurrence of each skill in vocabulary order. */
  function SkillsOf(text: string): seq<string> {
    KeepFirst(FoundSkills(Lower(text), SkillVocabulary), Itself)
  }

  method ExtractSkills(text: string) returns (skills: seq<string>)
    ensures skills == SkillsOf(text)
  {
    var found := [];
    var lowered := Lower(text);
    var i := 0;
    while i < |SkillVocabulary|
      invariant 0 <= i <= |SkillVocabulary|
      invariant found == FoundSkills(lowered, SkillVocabulary[..i])
    {
      assert SkillVocabulary[..i + 1][..i] == SkillVocabulary[..i];
      var skill := SkillVocabulary[i];
      if Contains(lowered, skill) {
        found := found + [Title(skill)];
      }
      i := i + 1;
    }
    assert SkillVocabulary[..i] == SkillVocabulary;
    skills := KeepFirst(found, Itself);
  }

  /** Every found skill is the title case of a term that occurs, each such
      term's title case is found, and at most one skill per term. */
  lemma {:induction false} FoundSkillsMembers(lowered: string, terms: seq<string>)
    ensures |FoundSkills(lowered, terms)| <= |terms|
    ensures forall x :: x in FoundSkills(lowered, terms) <==>
              exists i :: 0 <= i < |terms| && Contains(lowered, terms[i]) && x == Title(terms[i])
    decreases |terms|
  {
    if terms != [] {
      var init := terms[..|terms| - 1];
      FoundSkillsMembers(lowered, init);
      assert forall i :: 0 <= i < |init| ==> init[i] == terms[i];
    }
  }

  /** Lower-casing is idempotent, so a substring of lower-cased text stays
      one when it is itself lower-cased. */
  lemma ContainsLowered(text: string, s: string)
    requires Contains(Lower(text), s)
    ensures Contains(Lower(text), Lower(s))
  {
    var t := Lower(text);
    ContainsIffOccurs(t, s);
    var i :| OccursAt(t, s, i);
    assert Lower(t) == t;
    assert forall k :: 0 <= k < |s| ==> Lower(s)[k] == Lower(t)[i + k];
    assert t[i..i + |s|] == Lower(s);
    assert OccursAt(t, Lower(s), i);
    ContainsIffOccurs(t, Lower(s));
  }

  /** `extract_skills`: no skill twice, at most one per vocabulary term,
      the title case of every term that occurs in the lower-cased text, and
      each skill the title case of a term that occurs. The title case of a
      string is reported only when its lower case occurs; for the
      vocabulary's lower-case terms that is the term itself. */
  lemma SkillsOfFacts(text: string)
    ensures var r := SkillsOf(text);
      (forall i, j :: 0 <= i < j < |r| ==> r[i] != r[j])
      && |r| <= |SkillVocabulary|
      && (forall t :: t in SkillVocabulary && Contains(Lower(text), t) ==> Title(t) in r)
      && (forall t :: Title(t) in r ==> Contains(Lower(text), Lower(t)))
      && (forall x :: x in r ==> exists i :: 0 <= i < |SkillVocabulary|
                                   && Contains(Lower(text), SkillVocabulary[i]) && x == Title(SkillVocabulary[i]))
  {
    var found := FoundSkills(Lower(text), SkillVocabulary);
    var r := SkillsOf(text);
    KeepFirstDistinct(found, Itself);
    KeepFirstSubsequence(found, Itself);
    KeepFirstKeys(found, Itself);
    FoundSkillsMembers(Lower(text), SkillVocabulary);
    assert forall x :: x in r <==> x in Keys(r, Itself);
    assert forall x :: x in found <==> x in Keys(found, Itself);
    forall t | Title(t) in r ensures Contains(Lower(text), Lower(t)) {
      var i :| 0 <= i < |SkillVocabulary| && Contains(Lower(text), SkillVocabulary[i])
               && Title(t) == Title(SkillVocabulary[i]);
      TitleIdempotent(t);
      TitleIdempotent(SkillVocabulary[i]);
      ContainsLowered(text, SkillVocabulary[i]);
    }
  }

  // ----------------------------------------------------------------------
  // extract_education

  const EducationTerms: seq<string> := [
    "bachelor", "master", "phd", "doctorate", "mba", "bs", "ms", "ba", "ma",
    "university", "college", "institute", "school", "degree", "graduated"
  ]

  /** A line whose lower case contains an education term, also inside a
      longer word. */
  predicate IsEducationLine(line: string) {
    ContainsAny(Lower(line), EducationTerms)
  }

  /** `education_lines` after the loop: every education line, stripped, in
      order. */
  function EducationLines(lines: seq<string>): seq<string>
    decreases |lines|
  {
    if lines == [] then []
    else
      var init := EducationLines(lines[..|lines| - 1]);
      var line := lines[|lines| - 1];
      if IsEducationLine(line) then init + [Strip(line)] else init
  }

  /** `extract_education`: at most five education lines. */
  function EducationOf(lines: seq<string>): seq<string> {
    Take(EducationLines(lines), 5)
  }

  method ExtractEducation(text: string) returns (education: seq<string>)
    ensures education == EducationOf(Split(text, '\n'))
  {
    var lines := Split(text, '\n');
    var found := [];
    var i := 0;
    while i < |lines|
      invariant 0 <= i <= |lines|
      invariant found == EducationLines(lines[..i])
    {
      assert lines[..i + 1][..i] == lines[..i];
      var line := lines[i];
      if ContainsAny(Lower(line), EducationTerms) {
        found := found + [Strip(line)];
      }
      i := i + 1;
    }
    assert lines[..i] == lines;
    education := Take(found, 5);
  }

  lemma {:induction false} EducationLinesAppend(a: seq<string>, b: seq<string>)
    ensures EducationLines(a + b) == EducationLines(a) + EducationLines(b)
    decreases |b|
  {
    if b == [] {
      assert a + b == a;
    } else {
      var b0 := b[..|b| - 1];
      assert (a + b)[..|a + b| - 1] == a + b0;
      assert (a + b)[|a + b| - 1] == b[|b| - 1];
      EducationLinesAppend(a, b0);
    }
  }

  /** The education lines are exactly the stripped education lines of the
      input, one per such line, in their order. */
  lemma {:induction false} EducationLinesMembers(lines: seq<string>)
    ensures |EducationLines(lines)| <= |lines|
    ensures forall x :: x in EducationLines(lines) <==>
              exists i :: 0 <= i < |lines| && IsEducationLine(lines[i]) && x == Strip(lines[i])
    ensures EducationLines(lines) == [] <==> forall i :: 0 <= i < |lines| ==> !IsEducationLine(lines[i])
    decreases |lines|
  {
    if lines != [] {
      var init := lines[..|lines| - 1];
      EducationLinesMembers(init);
      assert forall i :: 0 <= i < |init| ==> init[i] == lines[i];
    }
  }

  /** `extract_education` keeps the first education lines, as many as
      there are up to five, and stops looking once five are found. */
  lemma EducationOfFacts(lines: seq<string>, more: seq<string>)
    ensures var all := EducationLines(lines);
      var r := EducationOf(lines);
      |r| <= 5 && r == all[..|r|] && (|r| < 5 ==> r == all)
    ensures |EducationLines(lines)| >= 5 ==> EducationOf(lines + more) == EducationOf(lines)
  {
    EducationLinesAppend(lines, more);
    var a := EducationLines(lines);
    if |a| >= 5 {
      assert (a + EducationLines(more))[..5] == a[..5];
    }
  }

  // ----------------------------------------------------------------------
  // parse_resume_manual

  /** The value of `job_title`: the title case of the first pattern match,
      or "" when no pattern matched. `re.findall` on a pattern with one
      capture group returns that group's text, so each match is the group
      word (`senior`, `software`, `engineer`), not the whole phrase. */
  function JobTitle(jobTitles: seq<string>): string {
    if jobTitles != [] then Title(jobTitles[0]) else ""
  }

  /** `phones[0] if phones else ""` */
  function FirstOr(xs: seq<string>): string {
    if xs != [] then xs[0] else ""
  }

  function ManualContact(phone: string, emails: seq<string>): Dict {
    [("location", VStr("")),
     ("phone_number", VStr(phone)),
     ("email_address", VList(Strs(emails))),
     ("personal_urls", VList([]))]
  }

  const ManualKeys: seq<string> := [
    "candidate_name", "contact_info", "job_title", "bio", "work_experience",
    "skills", "education", "professional_development", "other_info"
  ]

  /** The dict `parse_resume_manual` returns. */
  function ManualRecord(name: string, contact: Dict, jobTitle: string,
                        skills: seq<string>, education: seq<string>): (r: Dict)
    ensures KeysOf(r) == ManualKeys
  {
    [("candidate_name", VStr(name)),
     ("contact_info", VDict(contact)),
     ("job_title", VStr(jobTitle)),
     ("bio", VStr("")),
     ("work_experience", VList([])),
     ("skills", VList(Strs(skills))),
     ("education", VList(Strs(education))),
     ("professional_development", VList([])),
     ("other_info", VList([]))]
  }

  /** `parse_resume_manual(text)`, given what `re.findall` returns for the
      email pattern, for each phone pattern and for each job-title
      pattern. */
  function ManualOf(text: string, emails: seq<string>, phoneMatches: seq<seq<string>>,
                    titleMatches: seq<seq<string>>): Dict
  {
    var lines := Split(text, '\n');
    ManualRecord(CandidateName(lines), ManualContact(FirstOr(Flatten(phoneMatches)), emails),
                 JobTitle(Flatten(titleMatches)), SkillsOf(text), EducationOf(lines))
  }

  method ParseResumeManual(text: string, emails: seq<string>, phoneMatches: seq<seq<string>>,
                           titleMatches: seq<seq<string>>) returns (r: Dict)
    ensures r == ManualOf(text, emails, phoneMatches, titleMatches)
  {
    var phones := ExtendAll(phoneMatches);
    var name := ExtractName(text);
    var skills := ExtractSkills(text);
    var education := ExtractEducation(text);
    var jobTitles := [];
    var i := 0;
    while i < |titleMatches|
      invariant 0 <= i <= |titleMatches|
      invariant jobTitles == Flatten(titleMatches[..i])
    {
      assert titleMatches[..i + 1][..i] == titleMatches[..i];
      jobTitles := jobTitles + titleMatches[i];
      i := i + 1;
    }
    assert titleMatches[..i] == titleMatches;
    var jobTitle := if jobTitles != [] then Title(jobTitles[0]) else "";
    var phone := if phones != [] then phones[0] else "";
    r := ManualRecord(name, ManualContact(phone, emails), jobTitle, skills, education);
  }

  /** The first element of the first non-empty list, if any list has one. */
  predicate FirstMatchOf(ss: seq<seq<string>>, x: string) {
    exists i :: 0 <= i < |ss| && ss[i] != [] && x == ss[i][0] && forall j :: 0 <= j < i ==> ss[j] == []
  }

  /** `job_title` is "" when no title pattern matched, and otherwise the
      title case of the first match of the first pattern that matched. */
  lemma ManualJobTitle(text: string, emails: seq<string>, phoneMatches: seq<seq<string>>,
                       titleMatches: seq<seq<string>>)
    ensures var jt := JobTitle(Flatten(titleMatches));
      Get(ManualOf(text, emails, phoneMatches, titleMatches), "job_title") == Some(VStr(jt))
      && ((forall i :: 0 <= i < |titleMatches| ==> titleMatches[i] == []) ==> jt == "")
      && ((exists i :: 0 <= i < |titleMatches| && titleMatches[i] != []) ==>
            exists x :: FirstMatchOf(titleMatches, x) && jt == Title(x))
  {
    var lines := Split(text, '\n');
    ManualRecordFields(CandidateName(lines), ManualContact(FirstOr(Flatten(phoneMatches)), emails),
                       JobTitle(Flatten(titleMatches)), SkillsOf(text), EducationOf(lines));
    JobTitleOfMatches(titleMatches);
  }

  /** The job title of the title matches: "" without any match, the title
      case of the first match otherwise. */
  lemma JobTitleOfMatches(titleMatches: seq<seq<string>>)
    ensures var jt := JobTitle(Flatten(titleMatches));
      && ((forall i :: 0 <= i < |titleMatches| ==> titleMatches[i] == []) ==> jt == "")
      && ((exists i :: 0 <= i < |titleMatches| && titleMatches[i] != []) ==>
            exists x :: FirstMatchOf(titleMatches, x) && jt == Title(x))
  {
    FlattenFirst(titleMatches);
    var f := Flatten(titleMatches);
    if f != [] {
      assert FirstMatchOf(titleMatches, f[0]);
      assert JobTitle(f) == Title(f[0]);
    }
  }

  lemma ManualContactFields(phone: string, emails: seq<string>)
    ensures var c := ManualContact(phone, emails);
      Get(c, "location") == Some(VStr(""))
      && Get(c, "phone_number") == Some(VStr(phone))
      && Get(c, "email_address") == Some(VList(Strs(emails)))
      && Get(c, "personal_urls") == Some(VList([]))
  {
    var c := ManualContact(phone, emails);
    GetAt(c, 1);
    GetAt(c, 2);
    GetAt(c, 3);
  }

  /** The fields of a manual record other than the contact details, one
      lemma per field: the extractors' results and fixed empty values. */
  lemma ManualRecordFields(name: string, contact: Dict, jobTitle: string,
                           skills: seq<string>, education: seq<string>)
    ensures var r := ManualRecord(name, contact, jobTitle, skills, education);
      Get(r, "candidate_name") == Some(VStr(name))
      && Get(r, "contact_info") == Some(VDict(contact))
      && Get(r, "job_title") == Some(VStr(jobTitle))
      && Get(r, "bio") == Some(VStr(""))
  {
    var r := ManualRecord(name, contact, jobTitle, skills, education);
    GetAt(r, 1);
    GetAt(r, 2);
    GetAt(r, 3);
  }

  lemma ManualRecordLists(name: string, contact: Dict, jobTitle: string,
                          skills: seq<string>, education: seq<string>)
    ensures var r := ManualRecord(name, contact, jobTitle, skills, education);
      Get(r, "work_experience") == Some(VList([]))
      && Get(r, "skills") == Some(VList(Strs(skills)))
      && Get(r, "education") == Some(VList(Strs(education)))
      && Get(r, "professional_development") == Some(VList([]))
      && Get(r, "other_info") == Some(VList([]))
  {
    var r := ManualRecord(name, contact, jobTitle, skills, education);
    assert forall i, j :: 0 <= i < j < |r| ==> r[i].0 != r[j].0;
    GetAt(r, 4);
    GetAt(r, 5);
    GetAt(r, 6);
    GetAt(r, 7);
    GetAt(r, 8);
  }

  /** The contact details of `parse_resume_manual`: the first phone match
      of the first phone pattern that matched, or ""; and every email match
      as found, duplicates included. Every phone pattern matches at least
      ten characters, so no match is empty. */
  lemma ManualPhoneAndEmails(text: string, emails: seq<string>, phoneMatches: seq<seq<string>>,
                             titleMatches: seq<seq<string>>)
    requires forall i, j :: 0 <= i < |phoneMatches| && 0 <= j < |phoneMatches[i]| ==> phoneMatches[i][j] != ""
    ensures var c := ManualContact(FirstOr(Flatten(phoneMatches)), emails);
      Get(ManualOf(text, emails, phoneMatches, titleMatches), "contact_info") == Some(VDict(c))
      && Get(c, "email_address") == Some(VList(Strs(emails)))
      && (Get(c, "phone_number") == Some(VStr("")) <==> forall i :: 0 <= i < |phoneMatches| ==> phoneMatches[i] == [])
      && (forall x :: Get(c, "phone_number") == Some(VStr(x)) && x != "" ==> FirstMatchOf(phoneMatches, x))
  {
    var phone := FirstOr(Flatten(phoneMatches));
    var lines := Split(text, '\n');
    ManualRecordFields(CandidateName(lines), ManualContact(phone, emails),
                       JobTitle(Flatten(titleMatches)), SkillsOf(text), EducationOf(lines));
    ManualContactFields(phone, emails);
    FlattenFirst(phoneMatches);
    if Flatten(phoneMatches) != [] {
      assert FirstMatchOf(phoneMatches, phone);
    }
  }

  // ----------------------------------------------------------------------
  // parse_resume

  const PdfType := "application/pdf"
  const DocxType := "application/vnd.openxmlformats-officedocument.wordprocessingml.document"
  const TextType := "text/plain"

  predicate SupportedType(fileType: string) {
    fileType == PdfType || fileType == DocxType || fileType == TextType
  }

  /** `pyres_data and pyres_data.get('candidate_name')` */
  predicate UsePyres(pyres: Dict) {
    pyres != [] && Truthy(GetOr(pyres, "candidate_name", VNull))
  }

  /** `parsing_metadata`; the elapsed time is a rounded float, an input
      here. */
  function Metadata(elapsed: Value, fileType: string, textLength: nat, pyres: Dict): (r: Dict)
    ensures KeysOf(r) == ["parsing_time_seconds", "file_type", "text_length", "parsing_method"]
  {
    [("parsing_time_seconds", elapsed),
     ("file_type", VStr(fileType)),
     ("text_length", VInt(textLength)),
     ("parsing_method", VStr(if UsePyres(pyres) then "pyresparser" else "manual"))]
  }

  /** `parse_resume(file_path, file_type)`. `text` is what the decoder for
      `file_type` extracted, `pyres` what `try_pyresparser` returned (`{}`
      on failure), `elapsed` the rounded parsing time, and the match lists
      those of `parse_resume_manual`. */
  function ParseResume(fileType: string, text: string, pyres: Dict, elapsed: Value,
                       emails: seq<string>, phoneMatches: seq<seq<string>>,
                       titleMatches: seq<seq<string>>): (r: Dict)
    ensures r == [] <==> !SupportedType(fileType) || Strip(text) == ""
    ensures r != [] ==> HasKey(r, "parsing_metadata")
  {
    if !SupportedType(fileType) then []
    else if Strip(text) == "" then []
    else
      var parsed := if UsePyres(pyres) then pyres else ManualOf(text, emails, phoneMatches, titleMatches);
      Put(parsed, "parsing_metadata", VDict(Metadata(elapsed, fileType, |text|, pyres)))
  }

  /** An unsupported type or text that is blank once stripped gives `{}`;
      otherwise the result is never empty. */
  lemma ParseResumeAborts(fileType: string, text: string, pyres: Dict, elapsed: Value,
                          emails: seq<string>, phoneMatches: seq<seq<string>>,
                          titleMatches: seq<seq<string>>)
    ensures ParseResume(fileType, text, pyres, elapsed, emails, phoneMatches, titleMatches) == []
            <==> !SupportedType(fileType) || forall i :: 0 <= i < |text| ==> IsSpace(text[i])
  {
    StripIsPiece(text);
    var r := ParseResume(fileType, text, pyres, elapsed, emails, phoneMatches, titleMatches);
    if SupportedType(fileType) && Strip(text) != "" {
      assert HasKey(r, "parsing_metadata");
    }
  }

  /** The record is the external parser's exactly when it reported a
      truthy candidate name, and the manual one otherwise; the metadata
      names that choice and the length of the text. */
  lemma ParseResumeChoice(fileType: string, text: string, pyres: Dict, elapsed: Value,
                          emails: seq<string>, phoneMatches: seq<seq<string>>,
                          titleMatches: seq<seq<string>>)
    requires SupportedType(fileType) && Strip(text) != ""
    ensures var r := ParseResume(fileType, text, pyres, elapsed, emails, phoneMatches, titleMatches);
      var base := if UsePyres(pyres) then pyres else ManualOf(text, emails, phoneMatches, titleMatches);
      (forall k :: k != "parsing_metadata" ==> Get(r, k) == Get(base, k))
      && exists meta :: Get(r, "parsing_metadata") == Some(VDict(meta))
           && Get(meta, "file_type") == Some(VStr(fileType))
           && Get(meta, "text_length") == Some(VInt(|text|))
           && Get(meta, "parsing_time_seconds") == Some(elapsed)
           && (Get(meta, "parsing_method") == Some(VStr("pyresparser")) <==> UsePyres(pyres))
           && (Get(meta, "parsing_method") == Some(VStr("manual")) <==> !UsePyres(pyres))
  {
    var meta := Metadata(elapsed, fileType, |text|, pyres);
    GetAt(meta, 1);
    GetAt(meta, 2);
    GetAt(meta, 3);
  }
}
