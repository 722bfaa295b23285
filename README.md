# Resume parser: a verified model of its extraction core

This project models in Dafny the core of a resume parser. The parser reads a
resume document, takes its text, and fills one output record. That record
holds the candidate's name, contact details, job title, bio, work history,
skills, education, professional development and other information. It has
two extraction strategies:

- **The language-model path** (`parser.py`). A `ResumeManager` fills its
  `output` record group by group: basic info, skills, education and work
  experience. Each group asks a language-model service. A JSON reply goes
  through the group's validation model (`pydantic_models_prompts.py`). When
  the group's primary path raises, a plain-text fallback prompt is used.
  Emails and profile URLs always come from pattern matches over the resume
  text (`utils.py`).
- **The deterministic path** (`app.py`). Heuristic extractors find the name,
  skills, education and job title. `parse_resume` then picks the external
  resume parser's record or this manual record, and adds parsing metadata.

`utils.py` also normalises records. `sanitize_output` copies a record onto
the output template and coerces its list fields and emails. It also formats
work and education entries, validates records and counts their statistics.

The model keeps the source's own structure:

| file | module | what it models |
|---|---|---|
| `values.dfy` | `Values` | the JSON values Python code handles (ordered dicts), truthiness, `in`, subscripting, `len`, the exceptions raised |
| `text.dfy` | `Text` | `str` operations: ASCII `lower`/`title`/`istitle`, `isspace`, `strip`, `split`, `join`, `sub in s` |
| `seqs.dfy` | `Seqs` | first-occurrence deduplication (the `seen`-set loops), filtering, `extend` loops |
| `utils.dfy` | `Utils` | the contact extractors and text cleanup of `utils.py` |
| `output.dfy` | `Output` | the output template, entry formatting, `sanitize_output` (a class whose field is the template's shared contact dict), validation, statistics |
| `prompts.dfy` | `Prompts` | the pydantic models as field schemas with pydantic's coercion rules, and the two prompts whose text the parser depends on |
| `parser.dfy` | `Parser` | `ResumeManager` as a class over its `output` record, `extract_pydantic`, `query_model`, the fallbacks, `get_resume_content` |
| `app.dfy` | `App` | `extract_name`, `extract_skills`, `extract_education`, `parse_resume_manual`, `parse_resume` |

Methods that loop or update state are imperative Dafny. Each is proved
equal to a specification function, and lemmas state what the source
promises about that function. Replies of the language-model service,
`json.loads` outcomes, regular-expression matches, decoder output and the
external resume parser's record are inputs.

### Where the code and its description differ (the model follows the code)

- The work list of the output record is named `work_output`, not
  `work_experience` (`utils.py:16`). The manual record of `app.py` uses
  `work_experience` (`app.py:186`).
- When the basic-info call fails, the group does not fall back.
  `query_model` returns `"{}"` in JSON mode, which parses to an empty dict,
  so name, title and bio are blanked (`Parser.BasicInfoCallFailure`).
- The fallbacks of the education and work-experience groups can never run.
  `extract_pydantic` catches every exception, so the primary path never
  raises (`parser.py:136-140`).
- Without a `data` list, `extract_pydantic` reads the items of *every*
  top-level list, not only the first (`Parser.AllListsScanned`).
- A work drill-down reply is appended without validation. An entry without
  `company_name` can therefore be stored (`Parser.DrillAppends`).
- The manual job title is a single word such as "Senior" or "Software",
  not a phrase like "Senior Software Engineer". The title patterns have a
  capture group, so `re.findall` returns only the group's word
  (`app.py:164-174`, `App.ManualJobTitle`).
- `parser.py:18-24` imports `create_*_prompt` builders that
  `pydantic_models_prompts.py` does not define. The model treats those
  prompts as opaque: only their replies matter.

## Model

| member | source | states |
|---|---|---|
| `Seqs.ExtendAll` | app.py:97-100 | `extend` over the pattern match lists gives their concatenation, in order |
| `Utils.ExtractEmails` | utils.py:58-66 | the loop keeps the first email of each case-insensitive key, in order |
| `Utils.EmailsDistinctFirstSeen` | utils.py:58-66 | no two kept emails are equal ignoring case; every first occurrence is kept, and the result is a subsequence of the matches |
| `Utils.ExtractGithubAndLinkedinUrls` | utils.py:79-91 | the GitHub matches, then the LinkedIn matches, each URL once, first occurrence |
| `Utils.ProfileUrlsDistinctInOrder` | utils.py:83-91 | the URLs are distinct, exactly the URLs of both lists, in order, and the deduplicated GitHub URLs come first |
| `Utils.ExtractPersonalUrls` | utils.py:104-116 | the loop keeps each URL that names no social site, once, in order |
| `Utils.PersonalUrlsFiltered` | utils.py:106-116 | no kept URL contains facebook.com, twitter.com, instagram.com or youtube.com; kept URLs are distinct and exactly the matches passing the filter |
| `Utils.RemovePhoneSeparators` | utils.py:134 | the result is exactly the match's characters other than `-`, `.`, whitespace and parentheses, all of them and in their order; none of those separators survives |
| `Utils.RemovePhoneSeparatorsMembers` | utils.py:134 | a character occurs in the result iff it occurs in the match and is not a separator |
| `Text.KeepCharsMembers` | utils.py:134 | a character is kept iff it occurs in the input and passes the test |
| `Utils.ExtractPhoneNumbers` | utils.py:129-138 | the loop result equals the cleaned matches of length at least 10, in order |
| `Utils.PhoneNumbersMembers` | utils.py:131-137 | a number is kept iff it is the cleaned form of a match with at least 10 characters; kept numbers have no separator |
| `Utils.PhoneNumbersAppend` | utils.py:132-137 | each match is judged on its own: the result for two lists is the concatenation of their results |
| `Utils.PhoneGroupCapturesAlwaysDropped` | utils.py:129-138 | as written, `findall` yields only the optional country-code group, so no phone number survives |
| `Utils.PhoneWholeMatchesKept` | utils.py:129-138 | with whole matches, every phone match is kept, cleaned |
| `Utils.CollapseWhitespace` | utils.py:152 | the only whitespace character left is the plain space, no two neighbouring characters are whitespace, the result starts with whitespace iff the input does and is empty iff the input is, and the non-whitespace characters are exactly the input's, in order |
| `Utils.ReplaceNonAscii` | utils.py:156 | the result is ASCII, empty iff the input is, and its characters other than spaces are exactly the input's ASCII characters other than spaces, in order |
| `Utils.CleanTextContent` | utils.py:151-158 | the cleaned text is ASCII, has no newline, uses only spaces as whitespace, and is stripped |
| `Utils.CleanTextKeeps` | utils.py:151-158 | the non-whitespace characters of the cleaned text are exactly the ASCII non-whitespace characters of the input, in order |
| `Utils.ExtractAllContactInfo` | utils.py:332-337 | the four lists are the deduplicated emails, profile URLs, personal URLs and cleaned phones |
| `Output.BlankEntry` | utils.py:25-38 | a template entry has exactly the given keys, in order, all holding "" |
| `Output.OutputTemplateFacts` | utils.py:6-21 | the template has the record's keys in order, "" for the text fields, [] for the list fields, and the contact dict |
| `Output.FormatEntryOfDict` | utils.py:194-208 | a dict entry becomes the template with each key taken from the entry when truthy, else "" |
| `Output.WorkDescriptionBranchDead` | utils.py:199-206 | the `description` elif never changes the entry: a truthy description is already copied by the first branch |
| `Output.WorkNonDictRaises` | utils.py:198-199 | a work entry that is not a dict raises |
| `Output.EducationNonDict` | utils.py:229-231 | a number or None raises TypeError; a string or list that holds no key leaves the blank template |
| `Output.FormatAllRaised` | utils.py:194-208 | once an entry raises, the whole call raises that exception |
| `Output.FormatAllOfDicts` | utils.py:192-210 | a list of dicts formats without raising, one formatted entry per input, in order; no entry is dropped |
| `Output.FormatAllShape` | utils.py:192-210 | a successful call returns one dict per entry, each with exactly the template's keys |
| `Output.FormatItem` | utils.py:195-208 | the key loop over one entry computes the formatted entry or its exception |
| `Output.FormatEntries` | utils.py:192-210 | the entry loop computes the formatted list, stopping at the first exception |
| `Output.FormatWorkExperience` | utils.py:182-210 | `format_work_experience` is the entry loop with the work template and its description branch |
| `Output.FormatEducation` | utils.py:213-235 | `format_education` is the entry loop with the education template |
| `Output.CoerceEmails` | utils.py:172-177 | a string becomes a one-element list, a list is kept, anything else becomes [] |
| `Output.ValidateEmailFormat` | utils.py:161-179 | `validate_email_format` raises nothing but TypeError and keeps the record's keys; ValidateEmailFormatEffect, WithValidEmailsEffect and ValidateEmailFormatIdempotent characterise it |
| `Output.ValidateEmailFormatEffect` | utils.py:171-179 | data without a contact is returned as it is; a dict contact gets its emails made a list and nothing else changes; a non-dict contact raises TypeError exactly when it is None, a bool, a number or a container holding `email_address`, and is otherwise kept |
| `Output.ValidateEmailFormatIdempotent` | utils.py:161-179 | validating twice gives the same record as validating once |
| `Output.CoerceList` | utils.py:265-269 | a list is kept, a truthy value is wrapped, a falsy one becomes [] |
| `Output.CoerceListsOf` | utils.py:263-269 | the loop coerces each list field in turn |
| `Output.CoerceListFieldsOther` | utils.py:263-269 | keys that are not list fields are untouched |
| `Output.Template.constructor` | utils.py:6-13 | the module's template starts with the pristine contact dict |
| `Output.Template.MergeContactInto` | utils.py:256-258 | each contact key takes the given value when truthy; the template's own contact dict is the one updated |
| `Output.Sanitize` | utils.py:238-274 | one `sanitize_output` call, given the template's contact dict: it raises nothing but TypeError; SanitizeFields, SanitizeContact and SanitizeIdempotent characterise it |
| `Output.Template.SanitizeOutput` | utils.py:238-274 | the returned record and the template's contact dict after the call are those of `Output.Sanitize`, which is idempotent (`Output.SanitizeIdempotent`) |
| `Output.ListedFields` | utils.py:249-269 | after copying and coercion, every field is taken from the data or the template, and every list field is a list |
| `Output.SanitizeFields` | utils.py:238-274 | whatever the template's contact holds, the output has the template's keys in order, each field from the data (when present and not None) or the template, each list field a list |
| `Output.SanitizeContact` | utils.py:252-258 | unless the data replaces `contact_info` by a non-dict, the output and the template both hold the merged contact; a replacing value is kept or raises TypeError |
| `Output.SanitizeLeaksAcrossCalls` | utils.py:249-258 | as written, a location written by one call is the location a later call reports when its data has none |
| `Output.SanitizeLeakExample` | utils.py:249-258 | sanitizing `{"contact_info": {"location": "Paris"}}` and then `{}` reports location "Paris" the second time |
| `Output.MergedContactGet` | utils.py:256-258 | the merged contact keeps the template's keys; each entry holds the value the data gives when truthy, else the template's, and the emails are made a list |
| `Output.PristineUnmerged` | utils.py:249-258 | data without a contact leaves the pristine contact dict as it is |
| `Output.SanitizeFreshContact` | utils.py:248-258 | with a fresh copy per call, the output's contact depends only on the data and the pristine template |
| `Output.SanitizeSettled` | utils.py:238-274 | a record already in normal form (template keys, no None text field, list fields lists, emails a list, contact dict settled against the template) is returned as it is, and the template keeps its contact dict |
| `Output.SanitizeNormalizes` | utils.py:238-274 | every successful call returns a record in normal form for the contact dict it leaves in the template |
| `Output.SanitizeIdempotent` | utils.py:238-274 | sanitizing the output again, with the template as the first call left it, returns the same output and leaves the template unchanged |
| `Output.SanitizeFreshIdempotent` | utils.py:238-274 | with a fresh template per call, sanitizing the output again returns the same output |
| `Output.IsValidResumeData` | utils.py:341-357 | valid iff `candidate_name` and `job_title` are both present and truthy |
| `Output.SanitizeKeepsValidity` | utils.py:351-357 | sanitizing neither makes data valid nor invalid |
| `Output.GetResumeStatistics` | utils.py:360-378 | `get_resume_statistics` raises nothing but TypeError, and succeeds iff each of the five counted fields is missing or has a length; StatisticsOfSanitized and StatisticsEdgeCases characterise the counts |
| `Output.StatisticsOfSanitized` | utils.py:370-376 | sanitized data never makes the statistics raise, and each count is the length of its list field |
| `Output.StatisticsEdgeCases` | utils.py:370-378 | a None work list raises TypeError; data without any counted field has all counts zero |
| `Prompts.FieldNames` | parser.py:66 | a model's field names, in declaration order |
| `Prompts.CoerceStr` | pydantic_models_prompts.py:10-12 | a `str` field accepts exactly strings and numbers, and keeps a string unchanged |
| `Prompts.CoerceStrs` | pydantic_models_prompts.py:83 | a `List[str]` field accepts a list exactly when each element is string-like, and keeps its length |
| `Prompts.ValidateFieldAccepts` | pydantic_models_prompts.py:9-14 | one field validates iff it accepts the given entry |
| `Prompts.ValidateFieldsIff` | pydantic_models_prompts.py:9-14 | a dict builds a model iff every field accepts its entry; the record has the declared fields in order, required fields are never None, and a missing optional field is None |
| `Prompts.ExtraKeysIgnored` | parser.py:113-119 | keys the model does not declare make no difference to `schema(**item)` |
| `Prompts.VariantsAgree` | pydantic_models_prompts.py:43-49 | `SingleWorkExperience`, `WorkExperienceV2` and `EducationV2` declare the same fields as `WorkExperience` and `Education` |
| `Prompts.BasicInfoFields` | pydantic_models_prompts.py:9-14 | `BasicInfo` builds iff name, bio and job_title are string-like and location and phone are missing, None or string-like |
| `Prompts.WorkExperienceFields` | pydantic_models_prompts.py:34-40 | `WorkExperience` builds iff company, title and both dates are string-like and the description is missing, None or string-like |
| `Prompts.EducationFields` | pydantic_models_prompts.py:120-125 | `Education` builds iff the qualification is string-like and the other three are missing, None or string-like |
| `Prompts.SkillsFields` | pydantic_models_prompts.py:82-90 | `Skills` builds iff `skills` is a list of string-like values and `professional_development` and `other` are missing, None or such lists |
| `Prompts.FallbackBasicInfoPrompt` | pydantic_models_prompts.py:26-29 | the prompt is the question with the query, then the resume at a known offset, then the answer footer |
| `Prompts.CompaniesPreamble` | pydantic_models_prompts.py:68-73 | the companies prompt opens with its question, then its three template lines |
| `Prompts.CompaniesPrompt` | pydantic_models_prompts.py:68-77 | the companies prompt embeds the full resume between the template and the answer footer |
| `Parser.QueryModel` | parser.py:142-169 | the answer's text; a failed call gives "{}" in JSON mode and "" otherwise |
| `Parser.LoadsReply` | parser.py:165-176 | `json.loads` of a JSON-mode reply: a failed call's "{}" is the empty dict, otherwise the reply's own parse outcome; BasicInfoCallFailure and DrillAppends rely on it |
| `Parser.ValidItemsAppend` | parser.py:112-119 | items are validated one by one: two lists give the concatenation of their results |
| `Parser.ItemsIndependent` | parser.py:113-119 | an item that fails validation is dropped without affecting its siblings; one that validates is kept in its place |
| `Parser.ValidItemsShape` | parser.py:111-119 | kept items are the schema's records, each built from one candidate, no more of them than candidates |
| `Parser.AllListsScanned` | parser.py:120-130 | with no `data` list, the items of every top-level list are tried, in the dict's order |
| `Parser.DataListOnly` | parser.py:111-119 | a `data` list wins: other lists of the reply are ignored |
| `Parser.ValidateEach` | parser.py:112-119 | the item loop keeps exactly the items that validate |
| `Parser.ExtractPydantic` | parser.py:61-140 | `extract_pydantic` computes the validated items of the reply, and [] when the call or parsing fails |
| `Parser.ExtractedShape` | parser.py:106-134 | whatever the reply, every extracted item is a record of the schema |
| `Parser.TemplateShaped` | parser.py:40 | the manager's record starts with the template's keys and contact keys |
| `Parser.ProfilesWrittenLast` | parser.py:198-200 | whatever the replies, the contact ends with the deduplicated emails and the GitHub/LinkedIn URLs of the resume |
| `Parser.WriteProfilesKeeps` | parser.py:198-200 | the profile writes change only `email_address` and `personal_urls` |
| `Parser.Profiled` | parser.py:171-200 | after basic info the record agrees with the filled record everywhere but those two contact entries |
| `Parser.StoreBasicJsonFacts` | parser.py:181-189 | the primary path writes name, title and bio (each "" when missing), and location and phone only when the reply has them |
| `Parser.PrimaryField` | parser.py:181-183 | with a dict reply, name, job title and bio are the reply's values, or "" |
| `Parser.PrimaryContact` | parser.py:186-189 | with a dict reply, location and phone are written only when the reply has those keys |
| `Parser.PrimaryOutside` | parser.py:171-200 | with a dict reply, the keys outside the basic-info group are unchanged |
| `Parser.FallbackAnswersUnused` | parser.py:171-196 | with a dict reply, the fallback answers play no part |
| `Parser.FallbackName` | parser.py:206-208 | a non-dict or invalid reply takes the fallback: the name is the stripped plain answer, or "" |
| `Parser.FallbackTitle` | parser.py:211-213 | in the fallback the job title is the stripped plain answer, or "" |
| `Parser.FallbackBasicKeeps` | parser.py:202-216 | the fallback writes only name and job title |
| `Parser.FallbackRest` | parser.py:191-213 | in the fallback, bio, location, phone and every key outside the group are unchanged |
| `Parser.BasicInfoCallFailure` | parser.py:165-183 | a failed basic-info call blanks name, title and bio instead of falling back |
| `Parser.SkillsPrimary` | parser.py:218-229 | a dict reply sets skills, professional_development and other_info from `skills`, `professional_development` and `other`, each [] when missing |
| `Parser.SkillsFallback` | parser.py:231-241 | otherwise only skills can change: to the pieces of a non-empty fallback answer; an empty answer changes nothing |
| `Parser.NonEmptyStrippedFacts` | parser.py:240 | each fallback skill is a non-empty stripped piece without a comma; there are no more skills than pieces |
| `Parser.CommaSkillsFacts` | parser.py:238-241 | the comma-split skills of any answer are non-empty, stripped and comma-free |
| `Parser.NonEmptyStrippedExact` | parser.py:240 | when no piece strips to "", the skills are exactly the stripped pieces |
| `Parser.CommaSkillsRoundTrip` | parser.py:238-241 | skills written `a, b, c`, as the fallback prompt asks, read back as exactly those skills |
| `Parser.LineCompanyFacts` | parser.py:280-290 | a company read from a line is non-empty, stripped and comma-free; its role is stripped and comma-free ("" without a comma); the line is not blank and does not mention "answer" |
| `Parser.LineCompanyRender` | parser.py:280-290 | a `company, job title` line reads back as its pair |
| `Parser.CompaniesInAppend` | parser.py:280-294 | lines are read one by one: two blocks give the concatenation of their pairs |
| `Parser.SkippedLine` | parser.py:281-288 | a blank line, an "answer" line or a line with no company is skipped without affecting the others |
| `Parser.CompaniesRoundTrip` | parser.py:280-290 | an answer in the companies template format gives back exactly its pairs, in order |
| `Parser.DrillAppends` | parser.py:299-312 | a drill-down appends its parsed reply ({} after a failed call) to the work list and changes nothing else; an unparsable reply changes nothing |
| `Parser.DrillAllAppends` | parser.py:274-297 | the fallback work list is the old list followed by each company's parsed reply, in the answer's order |
| `Parser.RecordGroups` | parser.py:243-268 | the education and work lists become the extracted records; nothing else changes |
| `Parser.ResumeManager.constructor` | parser.py:39-44 | the record starts as a deep copy of the template, holding the pristine contact |
| `Parser.ResumeManager.FallbackBasicInfo` | parser.py:202-216 | the record after `fallback_basic_info` |
| `Parser.ResumeManager.StoreBasicInfo` | parser.py:181-189 | the record after the primary basic-info writes |
| `Parser.ResumeManager.ExtractBasicInfo` | parser.py:171-200 | the record after `extract_basic_info`: the primary or fallback writes, then the contact profile writes |
| `Parser.ResumeManager.ExtractSkills` | parser.py:218-241 | the record after `extract_skills`, primary or comma-split fallback |
| `Parser.ResumeManager.ExtractEducation` | parser.py:243-260 | the record after `extract_education` |
| `Parser.ResumeManager.ExtractWorkExperience` | parser.py:262-272 | the record after `extract_work_experience` |
| `Parser.ResumeManager.GetIntermediaryWorkExperience` | parser.py:299-312 | the record after one drill-down |
| `Parser.ResumeManager.FallbackExtractWorkExperience` | parser.py:274-297 | the line loop runs one drill-down per company line, in order |
| `Parser.ResumeManager.ProcessFile` | parser.py:46-59 | the record after the four groups, run one after the other |
| `Parser.SplitExt` | parser.py:319-320 | the extension is "" or a suffix of the path that starts with its only dot and has no `/` |
| `Parser.ExtensionTail` | parser.py:319-320 | after `base + ext`, with `ext` a dot followed by no dot or `/`, the last dot starts `ext` and the last `/` is `base`'s |
| `Parser.SplitExtOfName` | parser.py:319-320 | for all `base` and `ext` (a dot followed by no dot and no `/`), if the file name's part before `ext` has a character that is not a dot, the extension of `base + ext` is `ext` |
| `Parser.SplitExtOfDotName` | parser.py:319-320 | if that part is all dots (a dot-file such as `.docx`), the extension of `base + ext` is "" |
| `Parser.SplitExtExamples` | parser.py:319-320 | `resume.PDF` has extension `.PDF`; `cv/.docx` and `v1.2/resume` have none |
| `Parser.GetResumeContent` | parser.py:315-344 | the page and paragraph loops compute the stripped text, or the exception raised |
| `Parser.ContentDispatch` | parser.py:324-344 | only .pdf, .docx and .doc, in any case, are read; any other extension raises ValueError and a reader's exception is raised again |
| `Parser.ExtensionCaseInsensitive` | parser.py:325-332 | extensions that differ only in case read the same text |
| `Parser.BlankParagraphSkipped` | parser.py:334-336 | a blank paragraph of a Word file leaves no trace in the text |
| `Parser.EmptyPageSkipped` | parser.py:327-330 | a PDF page without text leaves no trace |
| `App.ExtractName` | app.py:103-113 | the loop with early return finds the first qualifying line of the first five |
| `App.NameFromFirst` | app.py:105-113 | the result is "" iff no line qualifies, and otherwise the stripped first qualifying line |
| `App.CandidateNameFacts` | app.py:103-113 | the name is "" or the stripped form of one of the first five lines; it avoids the denylist, has 2-4 words, those longer than one character title cased, and no earlier line qualifies |
| `App.CandidateNameIgnoresLaterLines` | app.py:106 | lines after the fifth never matter |
| `App.BlankLineSkipped` | app.py:106-108 | a blank line never qualifies but uses up one of the five places |
| `App.ExtractSkills` | app.py:115-135 | the vocabulary loop computes the title-cased terms found, deduplicated |
| `App.FoundSkillsMembers` | app.py:127-133 | a title is found iff it is the title of a term occurring in the lowered text; at most one per term |
| `App.SkillsOfFacts` | app.py:115-135 | no skill twice, at most 49; the title of every occurring term is reported, and a reported title's lower case occurs in the lowered text |
| `App.ExtractEducation` | app.py:137-152 | the line loop computes the first five education lines, stripped |
| `App.EducationLinesAppend` | app.py:147-150 | lines are judged one by one: two blocks give the concatenation of their education lines |
| `App.EducationLinesMembers` | app.py:147-150 | the education lines are exactly the stripped lines whose lower case contains a term |
| `App.EducationOfFacts` | app.py:144-152 | at most five entries, the first education lines in order; lines after the fifth education line never matter |
| `App.ManualRecord` | app.py:177-191 | the manual record has the nine keys of `parse_resume_manual`, in order |
| `App.ParseResumeManual` | app.py:154-191 | the record built from the extractors, the first phone, the raw emails and the job title |
| `App.ManualJobTitle` | app.py:162-175 | the job title is "" when no pattern matched, else the title case of the first match of the first pattern that matched |
| `App.ManualPhoneAndEmails` | app.py:155-183 | the phone is "" iff no phone pattern matched, else the first match of the first pattern that did; the emails are the raw matches |
| `App.ManualRecordFields` | app.py:177-191 | name, contact and job title hold the given values, and the bio is "" |
| `App.ManualRecordLists` | app.py:177-191 | skills and education hold the extractors' lists; the three other lists are empty |
| `App.ManualContactFields` | app.py:179-184 | location "" and personal_urls [] are fixed; phone and emails are the given values |
| `App.Metadata` | app.py:256-261 | the metadata has its four keys in order |
| `App.ParseResume` | app.py:222-263 | `parse_resume` returns `{}` iff the MIME type is unsupported or the text strips to "", and otherwise a record holding `parsing_metadata`; ParseResumeAborts and ParseResumeChoice characterise it |
| `App.ParseResumeAborts` | app.py:227-239 | the result is `{}` iff the MIME type is unsupported or the text is all whitespace |
| `App.ParseResumeChoice` | app.py:241-263 | the external parser's record is used iff it is non-empty with a truthy name, else the manual one; the metadata names that choice, the MIME type and the text length |

## Left out

- The web UI, its CSS, display and download, and the command-line entry point. These are presentation and I/O only (app.py:13-51, app.py:265-459, parser.py:347-380).
- Saving and loading JSON files (utils.py:277-319). These are file I/O.
- The regular-expression engine. Every `re.findall` result is an input. `re.sub` with the separator and whitespace patterns is written out.
- The document decoders: pdfplumber, python-docx, PyPDF2 and the text-file read. Their output is an input: page or paragraph texts, or an exception. `parse_resume` takes the decoded text as an input. A `.doc` file reaches the DOCX reader, and that reader's outcome is an input too.
- The language-model service. Each call's reply is an input: success with a text and its `json.loads` outcome, or failure. A reply whose `content` is None is not modelled.
- The external resume parser (`try_pyresparser`, app.py:193-220). It is a foreign library; its record (`{}` on failure) is an input.
- Threads. The four groups and the drill-downs run one after the other, in the order they are started. Other interleavings are not modelled.
- Elapsed time and rounding. These use the wall clock and floats. `parsing_time_seconds` is an input value; logging is left out.
- The prompt texts the parser sends only to the service: the LangChain format instructions, the basic-details, work-experience, skills and education prompts, and the alternative prompts (pydantic_models_prompts.py:17-23, 52-65, 93-115, 128-139, 161-235). They affect nothing but the reply, which is an input.
- The fallback paths of `extract_education` and `extract_work_experience`. They cannot run (see above), so only `fallback_extract_work_experience` is modelled, on its own.
- Letter case is ASCII only. Unicode `lower`, `title` and `istitle` are not modelled.
- pydantic's handling of floats and nested models. JSON numbers are integers here.
- test_api.py is not part of this model.
- App.SkillsOfFacts: the "only if" direction says that a reported title's *lower case* occurs in the text. The 49 vocabulary terms are already lower case, so this is the term itself, but the model does not prove that about the literal list.
- App.SkillsOf: `list(set(...))` has no defined order in Python. The model returns the skills in vocabulary order, and the stated contracts are about membership, distinctness and size only.

## Findings

| source | as written | input that shows it | evidently intended | confidence | as-written member | corrected member |
|---|---|---|---|---|---|---|
| utils.py:45 | `phone_pattern` has one capture group, so `re.findall` returns only the optional country-code prefix (at most 5 characters), and the length check at utils.py:135 drops every match | `+1 555-123-4567` yields the match `+1 `, cleaned to `+1`, so the result is `[]` | each whole match is cleaned and kept: `+15551234567` | not executed; high | `Utils.PhoneGroupCapturesAlwaysDropped` | `Utils.PhoneWholeMatchesKept` |
| utils.py:249 | `output_template.copy()` is shallow, so the writes at utils.py:258 update the module template's own contact dict, and later calls inherit the values | sanitize `{"contact_info": {"location": "Paris"}}`, then `{}`: the second output has location `Paris` | every call starts from a fresh copy of the template, as the comment at utils.py:248 says | not executed; high | `Output.SanitizeLeakExample` | `Output.SanitizeFreshContact` |
