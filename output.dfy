/** Output normalisation (utils.py): the output template, the formatting of
    work and education entries, `validate_email_format`, `sanitize_output`
    together with the template object it shares across calls, and the
    validity and statistics queries on parsed data. */
module Output {

  import opened Text
  import opened Values
  import opened Utils

  // ----------------------------------------------------------------------
  // Templates

  /** `output_template['contact_info']` as the module defines it. */
  const PristineContact: Dict := [
    ("location", VStr("")), ("phone_number", VStr("")),
    ("email_address", VList([])), ("personal_urls", VList([]))]

  const ContactKeys: seq<string> := ["location", "phone_number", "email_address", "personal_urls"]

  const OutputKeys: seq<string> := [
    "candidate_name", "contact_info", "job_title", "bio", "work_output",
    "skills", "education", "professional_development", "other_info"]

  /** `output_template`, with the dict `contact` as its `contact_info`. */
  function OutputTemplate(contact: Dict): Dict {
    [("candidate_name", VStr("")), ("contact_info", VDict(contact)),
     ("job_title", VStr("")), ("bio", VStr("")), ("work_output", VList([])),
     ("skills", VList([])), ("education", VList([])),
     ("professional_development", VList([])), ("other_info", VList([]))]
  }

  const WorkKeys: seq<string> := ["company_name", "job_title", "start_date", "end_date", "description"]
  const EducationKeys: seq<string> := ["qualification", "establishment", "country", "year"]

  predicate Distinct(keys: seq<string>) {
    forall i, j :: 0 <= i < j < |keys| ==> keys[i] != keys[j]
  }

  /** `work_experience_template` / `education_template`: every key maps to
      the empty string. */
  function BlankEntry(keys: seq<string>): (r: Dict)
    ensures KeysOf(r) == keys
    ensures forall k :: HasKey(r, k) ==> Get(r, k) == Some(VStr(""))
  {
    var r := seq(|keys|, i requires 0 <= i < |keys| => (keys[i], VStr("")));
    assert KeysOf(r) == keys;
    BlankValues(r);
    r
  }

  lemma {:induction false} BlankValues(d: Dict)
    requires forall i :: 0 <= i < |d| ==> d[i].1 == VStr("")
    ensures forall k :: HasKey(d, k) ==> Get(d, k) == Some(VStr(""))
    decreases |d|
  {
    if d != [] {
      BlankValues(d[1..]);
    }
  }

  // ----------------------------------------------------------------------
  // format_work_experience and format_education

  /** `item.get(key)`: only dicts have `get`. */
  function PyGet(item: Value, key: string): Result<Value> {
    match item
    case VDict(d) => Ok(GetOr(d, key, VNull))
    case _ => Raised(AttributeError)
  }

  /** The clean-up of a work description: whitespace runs become one
      space, then the ends are stripped; a non-string is kept as it is. */
  function CleanDescription(desc: Value): Value {
    match desc
    case VStr(s) => VStr(Strip(CollapseWhitespace(s)))
    case _ => desc
  }

  /** One turn of the key loop on `entry` for the raw entry `item`: the
      value is taken when `key in item and item[key]`; with
      `descriptionElif` (format_work_experience only) the branch
      `elif key == 'description' and item.get(key)` follows. */
  function FillKey(entry: Dict, item: Value, key: string, descriptionElif: bool): Result<Dict> {
    match PyIn(key, item)
    case Raised(e) => Raised(e)
    case Ok(present) =>
      var value := if present then PySubscript(item, key) else Ok(VNull);
      match value
      case Raised(e) => Raised(e)
      case Ok(v) =>
        if present && Truthy(v) then Ok(Put(entry, key, v))
        else if descriptionElif && key == "description" then
          (match PyGet(item, key)
           case Raised(e) => Raised(e)
           case Ok(desc) => if Truthy(desc) then Ok(Put(entry, key, CleanDescription(desc))) else Ok(entry))
        else Ok(entry)
  }

  /** The key loop over `keys`; the first exception ends it. */
  function FillKeys(entry: Dict, item: Value, keys: seq<string>, descriptionElif: bool): Result<Dict>
    decreases |keys|
  {
    if keys == [] then Ok(entry)
    else
      match FillKeys(entry, item, keys[..|keys| - 1], descriptionElif)
      case Raised(e) => Raised(e)
      case Ok(partial) => FillKey(partial, item, keys[|keys| - 1], descriptionElif)
  }

  /** One formatted entry: the template filled from `item`. */
  function FormatEntry(keys: seq<string>, item: Value, descriptionElif: bool): Result<Dict> {
    FillKeys(BlankEntry(keys), item, keys, descriptionElif)
  }

  /** The formatted list; the first exception ends the outer loop. */
  function FormatAll(items: seq<Value>, keys: seq<string>, descriptionElif: bool): Result<seq<Value>>
    decreases |items|
  {
    if items == [] then Ok([])
    else
      match FormatAll(items[..|items| - 1], keys, descriptionElif)
      case Raised(e) => Raised(e)
      case Ok(done) =>
        match FormatEntry(keys, items[|items| - 1], descriptionElif)
        case Raised(e) => Raised(e)
        case Ok(entry) => Ok(done + [VDict(entry)])
  }

  /** What an entry formatted from the dict `d` holds under `key`: the
      dict's value when it is truthy, the template's empty string otherwise. */
  function Pick(d: Dict, key: string): Value {
    var v := GetOr(d, key, VNull);
    if Truthy(v) then v else VStr("")
  }

  /** The reference result for a dict: the template's keys, in order, each
      with its picked value. */
  function Expected(keys: seq<string>, d: Dict): Dict {
    seq(|keys|, i requires 0 <= i < |keys| => (keys[i], Pick(d, keys[i])))
  }

  /** The entry after the first `n` keys: picked values before `n`, the
      template's empty strings from `n` on. */
  function PartialEntry(keys: seq<string>, d: Dict, n: int): Dict {
    seq(|keys|, i requires 0 <= i < |keys| => (keys[i], if i < n then Pick(d, keys[i]) else VStr("")))
  }

  /** One key of a dict entry: the value is taken when it is truthy. */
  lemma FillKeyOfDict(entry: Dict, d: Dict, k: string, descriptionElif: bool)
    ensures var v := GetOr(d, k, VNull);
      FillKey(entry, VDict(d), k, descriptionElif) == Ok(if Truthy(v) then Put(entry, k, v) else entry)
  {
    KeysOfHasKey(d, k);
  }

  /** The partial entry after one more key. */
  lemma PartialEntryStep(keys: seq<string>, d: Dict, n: int)
    requires Distinct(keys) && 0 < n <= |keys|
    ensures var before, k := PartialEntry(keys, d, n - 1), keys[n - 1];
      var v := GetOr(d, k, VNull);
      (if Truthy(v) then Put(before, k, v) else before) == PartialEntry(keys, d, n)
  {
    var before, k := PartialEntry(keys, d, n - 1), keys[n - 1];
    var v := GetOr(d, k, VNull);
    var after := PartialEntry(keys, d, n);
    assert before[n - 1].0 == k;
    if Truthy(v) {
      PutAt(before, n - 1, v);
      assert Put(before, k, v) == before[n - 1 := (k, v)];
      forall i | 0 <= i < |after| ensures before[n - 1 := (k, v)][i] == after[i] {
      }
    } else {
      forall i | 0 <= i < |after| ensures before[i] == after[i] {
      }
    }
  }

  lemma {:induction false} FillKeysPrefix(keys: seq<string>, d: Dict, n: nat, descriptionElif: bool)
    requires Distinct(keys) && n <= |keys|
    ensures FillKeys(BlankEntry(keys), VDict(d), keys[..n], descriptionElif) == Ok(PartialEntry(keys, d, n))
    decreases n
  {
    if n == 0 {
      assert keys[..0] == [];
      assert PartialEntry(keys, d, 0) == BlankEntry(keys);
    } else {
      var k := keys[n - 1];
      assert keys[..n][..n - 1] == keys[..n - 1];
      assert keys[..n][n - 1] == k;
      FillKeysPrefix(keys, d, n - 1, descriptionElif);
      var before := PartialEntry(keys, d, n - 1);
      assert FillKeys(BlankEntry(keys), VDict(d), keys[..n], descriptionElif)
          == FillKey(before, VDict(d), k, descriptionElif);
      FillKeyOfDict(before, d, k, descriptionElif);
      PartialEntryStep(keys, d, n);
    }
  }

  /** A dict entry is formatted to the reference result: each template key
      takes the dict's value when that value is truthy. For a dict the
      `description` branch of format_work_experience never fires, so both
      formatters agree. */
  lemma FormatEntryOfDict(keys: seq<string>, d: Dict, descriptionElif: bool)
    requires Distinct(keys)
    ensures FormatEntry(keys, VDict(d), descriptionElif) == Ok(Expected(keys, d))
  {
    FillKeysPrefix(keys, d, |keys|, descriptionElif);
    assert keys[..|keys|] == keys;
    assert PartialEntry(keys, d, |keys|) == Expected(keys, d);
  }

  /** The `elif key == 'description'` branch of format_work_experience is
      dead for dict entries: the result is the same without it. */
  lemma WorkDescriptionBranchDead(d: Dict)
    ensures FormatEntry(WorkKeys, VDict(d), true) == FormatEntry(WorkKeys, VDict(d), false)
    ensures FormatEntry(WorkKeys, VDict(d), true) == Ok(Expected(WorkKeys, d))
  {
    FormatEntryOfDict(WorkKeys, d, true);
    FormatEntryOfDict(WorkKeys, d, false);
  }

  /** format_work_experience raises on every entry that is not a dict: the
      `description` key is reached with `work[key]` or `work.get(key)`, and
      neither works on other values. */
  lemma WorkNonDictRaises(item: Value)
    requires !item.VDict?
    ensures FormatEntry(WorkKeys, item, true).Raised?
  {
    assert WorkKeys[..4][..3][..2][..1][..0] == [];
  }

  /** A loop over keys none of which is `in` the item changes nothing (no
      `description` branch). */
  lemma {:induction false} FillKeysAbsent(entry: Dict, item: Value, keys: seq<string>)
    requires forall i :: 0 <= i < |keys| ==> PyIn(keys[i], item) == Ok(false)
    ensures FillKeys(entry, item, keys, false) == Ok(entry)
    decreases |keys|
  {
    if keys != [] {
      FillKeysAbsent(entry, item, keys[..|keys| - 1]);
    }
  }

  /** format_education raises TypeError on an entry that is neither a dict,
      nor a string, nor a list (`key in edu`), and turns a string or list
      holding none of the keys into the blank template. */
  lemma EducationNonDict(item: Value)
    ensures (item.VNull? || item.VBool? || item.VInt?) ==> FormatEntry(EducationKeys, item, false) == Raised(TypeError)
    ensures item.VStr? && (forall i :: 0 <= i < |EducationKeys| ==> !Contains(item.s, EducationKeys[i]))
            ==> FormatEntry(EducationKeys, item, false) == Ok(BlankEntry(EducationKeys))
    ensures item.VList? && (forall i :: 0 <= i < |EducationKeys| ==> VStr(EducationKeys[i]) !in item.items)
            ==> FormatEntry(EducationKeys, item, false) == Ok(BlankEntry(EducationKeys))
  {
    if item.VNull? || item.VBool? || item.VInt? {
      assert EducationKeys[..1][..0] == [];
      FillKeysRaised(BlankEntry(EducationKeys), item, EducationKeys, 1, false);
    } else if item.VStr? || item.VList? {
      if forall i :: 0 <= i < |EducationKeys| ==> PyIn(EducationKeys[i], item) == Ok(false) {
        FillKeysAbsent(BlankEntry(EducationKeys), item, EducationKeys);
      }
    }
  }

  /** Once the key loop has raised, the remaining keys change nothing. */
  lemma {:induction false} FillKeysRaised(entry: Dict, item: Value, keys: seq<string>, n: nat, descriptionElif: bool)
    requires n <= |keys| && FillKeys(entry, item, keys[..n], descriptionElif).Raised?
    ensures FillKeys(entry, item, keys, descriptionElif) == FillKeys(entry, item, keys[..n], descriptionElif)
    decreases |keys|
  {
    if n == |keys| {
      assert keys[..n] == keys;
    } else {
      var init := keys[..|keys| - 1];
      assert init[..n] == keys[..n];
      FillKeysRaised(entry, item, init, n, descriptionElif);
    }
  }

  /** Once the outer loop has raised, the remaining entries change nothing. */
  lemma {:induction false} FormatAllRaised(items: seq<Value>, keys: seq<string>, n: nat, descriptionElif: bool)
    requires n <= |items| && FormatAll(items[..n], keys, descriptionElif).Raised?
    ensures FormatAll(items, keys, descriptionElif) == FormatAll(items[..n], keys, descriptionElif)
    decreases |items|
  {
    if n == |items| {
      assert items[..n] == items;
    } else {
      var init := items[..|items| - 1];
      assert init[..n] == items[..n];
      FormatAllRaised(init, keys, n, descriptionElif);
    }
  }

  /** The reference results of a list of dict entries. */
  function ExpectedAll(items: seq<Value>, keys: seq<string>): seq<Value>
    requires forall i :: 0 <= i < |items| ==> items[i].VDict?
  {
    seq(|items|, i requires 0 <= i < |items| => VDict(Expected(keys, items[i].entries)))
  }

  /** When every entry is a dict, the formatted list is the list of their
      reference results, one for one. */
  lemma {:induction false} FormatAllOfDicts(items: seq<Value>, keys: seq<string>, descriptionElif: bool)
    requires Distinct(keys)
    requires forall i :: 0 <= i < |items| ==> items[i].VDict?
    ensures FormatAll(items, keys, descriptionElif) == Ok(ExpectedAll(items, keys))
    decreases |items|
  {
    if items != [] {
      var init := items[..|items| - 1];
      FormatAllOfDicts(init, keys, descriptionElif);
      FormatEntryOfDict(keys, items[|items| - 1].entries, descriptionElif);
      assert ExpectedAll(items, keys) == ExpectedAll(init, keys) + [VDict(Expected(keys, items[|items| - 1].entries))];
    }
  }

  /** An entry that formats has exactly the template's keys. */
  lemma {:induction false} FillKeysKeys(entry: Dict, item: Value, keys: seq<string>, descriptionElif: bool)
    requires forall i :: 0 <= i < |keys| ==> keys[i] in KeysOf(entry)
    ensures FillKeys(entry, item, keys, descriptionElif).Ok? ==>
              KeysOf(FillKeys(entry, item, keys, descriptionElif).value) == KeysOf(entry)
    decreases |keys|
  {
    if keys != [] {
      var init := keys[..|keys| - 1];
      FillKeysKeys(entry, item, init, descriptionElif);
      var prior := FillKeys(entry, item, init, descriptionElif);
      if prior.Ok? {
        KeysOfHasKey(prior.value, keys[|keys| - 1]);
      }
    }
  }

  /** The formatted list has one entry per raw entry, each a dict with
      exactly the template's keys in the template's order. */
  lemma {:induction false} FormatAllShape(items: seq<Value>, keys: seq<string>, descriptionElif: bool)
    ensures var r := FormatAll(items, keys, descriptionElif);
      r.Ok? ==> |r.value| == |items|
                && forall i :: 0 <= i < |r.value| ==> r.value[i].VDict? && KeysOf(r.value[i].entries) == keys
    decreases |items|
  {
    if items != [] {
      FormatAllShape(items[..|items| - 1], keys, descriptionElif);
      FillKeysKeys(BlankEntry(keys), items[|items| - 1], keys, descriptionElif);
    }
  }

  /** The key loop on one entry: `formatted_entry = template.copy()`, then
      each template key in turn. */
  method FormatItem(keys: seq<string>, item: Value, descriptionElif: bool) returns (r: Result<Dict>)
    ensures r == FormatEntry(keys, item, descriptionElif)
  {
    var entry := BlankEntry(keys);
    var i := 0;
    while i < |keys|
      invariant 0 <= i <= |keys|
      invariant FillKeys(BlankEntry(keys), item, keys[..i], descriptionElif) == Ok(entry)
    {
      assert keys[..i + 1][..i] == keys[..i];
      var key := keys[i];
      var present := PyIn(key, item);
      if present.Raised? {
        r := Raised(present.error);
        FillKeysRaised(BlankEntry(keys), item, keys, i + 1, descriptionElif);
        return;
      }
      var value := VNull;
      if present.value {
        var sub := PySubscript(item, key);
        if sub.Raised? {
          r := Raised(sub.error);
          FillKeysRaised(BlankEntry(keys), item, keys, i + 1, descriptionElif);
          return;
        }
        value := sub.value;
      }
      if present.value && Truthy(value) {
        entry := Put(entry, key, value);
      } else if descriptionElif && key == "description" {
        var desc := PyGet(item, key);
        if desc.Raised? {
          r := Raised(desc.error);
          FillKeysRaised(BlankEntry(keys), item, keys, i + 1, descriptionElif);
          return;
        }
        if Truthy(desc.value) {
          entry := Put(entry, key, CleanDescription(desc.value));
        }
      }
      i := i + 1;
    }
    assert keys[..i] == keys;
    r := Ok(entry);
  }

  /** The outer loop shared by both formatters. */
  method FormatEntries(items: seq<Value>, keys: seq<string>, descriptionElif: bool) returns (r: Result<seq<Value>>)
    ensures r == FormatAll(items, keys, descriptionElif)
  {
    var formatted: seq<Value> := [];
    var i := 0;
    while i < |items|
      invariant 0 <= i <= |items|
      invariant FormatAll(items[..i], keys, descriptionElif) == Ok(formatted)
    {
      assert items[..i + 1][..i] == items[..i];
      var entry := FormatItem(keys, items[i], descriptionElif);
      if entry.Raised? {
        r := Raised(entry.error);
        FormatAllRaised(items, keys, i + 1, descriptionElif);
        return;
      }
      formatted := formatted + [VDict(entry.value)];
      i := i + 1;
    }
    assert items[..i] == items;
    r := Ok(formatted);
  }

  /** `format_work_experience(work_data)` */
  method FormatWorkExperience(workData: seq<Value>) returns (r: Result<seq<Value>>)
    ensures r == FormatAll(workData, WorkKeys, true)
  {
    r := FormatEntries(workData, WorkKeys, true);
  }

  /** `format_education(education_data)` */
  method FormatEducation(educationData: seq<Value>) returns (r: Result<seq<Value>>)
    ensures r == FormatAll(educationData, EducationKeys, false)
  {
    r := FormatEntries(educationData, EducationKeys, false);
  }

  // ----------------------------------------------------------------------
  // validate_email_format

  /** The email value normalised: a string becomes a one-element list, a
      list is kept, anything else becomes the empty list. */
  function CoerceEmails(emails: Value): (r: Value)
    ensures r.VList?
    ensures emails.VStr? ==> r == VList([emails])
    ensures emails.VList? ==> r == emails
    ensures !emails.VStr? && !emails.VList? ==> r == VList([])
  {
    match emails
    case VStr(_) => VList([emails])
    case VList(_) => emails
    case _ => VList([])
  }

  /** `validate_email_format(data)`. The dict is updated in place and
      returned; `'email_address' in contact` raises on a contact value
      that is not a container, and `contact['email_address']` on a string
      or list that contains the key. */
  function ValidateEmailFormat(data: Dict): (r: Result<Dict>)
    ensures r.Raised? ==> r.error == TypeError
    ensures r.Ok? ==> KeysOf(r.value) == KeysOf(data)
  {
    match Get(data, "contact_info")
    case None => Ok(data)
    case Some(contact) =>
      match PyIn("email_address", contact)
      case Raised(e) => Raised(e)
      case Ok(false) => Ok(data)
      case Ok(true) =>
        match contact
        case VDict(entries) =>
          var emails := GetOr(entries, "email_address", VNull);
          if emails.VList? then Ok(data)
          else Ok(Put(data, "contact_info", VDict(Put(entries, "email_address", CoerceEmails(emails)))))
        case _ => Raised(TypeError)
  }

  /** The contact dict `c` after email validation. */
  function WithValidEmails(c: Dict): Dict {
    match Get(c, "email_address")
    case None => c
    case Some(emails) => if emails.VList? then c else Put(c, "email_address", CoerceEmails(emails))
  }

  /** What validate_email_format does to a dict's contact entry: a dict
      holding emails gets them as a list, and everything else of the data
      stays as it is; absent contact data or emails leave the data alone;
      a non-dict contact value raises TypeError exactly when it is not a
      container or (a string or list) contains "email_address". */
  lemma ValidateEmailFormatEffect(data: Dict)
    ensures var r := ValidateEmailFormat(data);
      && (!HasKey(data, "contact_info") ==> r == Ok(data))
      && (forall c :: Get(data, "contact_info") == Some(VDict(c)) ==>
            && r.Ok?
            && Get(r.value, "contact_info") == Some(VDict(WithValidEmails(c)))
            && (forall k :: k != "contact_info" ==> Get(r.value, k) == Get(data, k))
            && KeysOf(r.value) == KeysOf(data))
      && (forall v :: Get(data, "contact_info") == Some(v) && !v.VDict? ==>
            (r == Raised(TypeError) <==> (v.VNull? || v.VBool? || v.VInt? || PyIn("email_address", v) == Ok(true)))
            && (r != Raised(TypeError) ==> r == Ok(data)))
  {
  }

  /** The emails of a validated contact dict are a list: the string or list
      given, or the empty list, and every other contact entry is unchanged. */
  lemma WithValidEmailsEffect(c: Dict)
    ensures var e := GetOr(c, "email_address", VNull);
      && (HasKey(c, "email_address") ==> Get(WithValidEmails(c), "email_address") == Some(CoerceEmails(e)))
      && (!HasKey(c, "email_address") ==> WithValidEmails(c) == c)
      && (forall k :: k != "email_address" ==> Get(WithValidEmails(c), k) == Get(c, k))
      && KeysOf(WithValidEmails(c)) == KeysOf(c)
  {
  }

  /** Validating twice is validating once. */
  lemma ValidateEmailFormatIdempotent(data: Dict)
    ensures var r := ValidateEmailFormat(data);
      r.Ok? ==> ValidateEmailFormat(r.value) == r
  {
  }

  // ----------------------------------------------------------------------
  // sanitize_output

  const ListFields: seq<string> := ["skills", "professional_development", "other_info", "work_output", "education"]

  /** The state of the key-copying loop: the output being built, the
      template's contact dict, and whether the output's `contact_info` is
      still that dict (`output_template.copy()` copies only the outer
      dict, so it is until a non-dict value replaces it). */
  datatype Copying = Copying(out: Dict, contact: Dict, shared: bool)

  /** One contact key: a truthy value given for it is written into the
      contact dict. */
  function MergeContactKey(contact: Dict, given: Dict, key: string): Dict {
    match Get(given, key)
    case Some(v) => if Truthy(v) then Put(contact, key, v) else contact
    case None => contact
  }

  function MergeContact(contact: Dict, given: Dict, keys: seq<string>): Dict
    decreases |keys|
  {
    if keys == [] then contact
    else MergeContactKey(MergeContact(contact, given, keys[..|keys| - 1]), given, keys[|keys| - 1])
  }

  /** One template key: a value present and not None is copied, except a
      dict for `contact_info`, whose entries are merged into the shared
      contact dict. */
  function CopyKey(st: Copying, data: Dict, key: string): Copying {
    match Get(data, key)
    case None => st
    case Some(v) =>
      if v == VNull then st
      else if key == "contact_info" && v.VDict? then
        var merged := MergeContact(st.contact, v.entries, ContactKeys);
        Copying(Put(st.out, key, VDict(merged)), merged, st.shared)
      else if key == "contact_info" then Copying(Put(st.out, key, v), st.contact, false)
      else Copying(Put(st.out, key, v), st.contact, st.shared)
  }

  function CopyKeys(st: Copying, data: Dict, keys: seq<string>): Copying
    decreases |keys|
  {
    if keys == [] then st
    else CopyKey(CopyKeys(st, data, keys[..|keys| - 1]), data, keys[|keys| - 1])
  }

  /** A list field's value made a list: a list is kept, another truthy
      value is wrapped, a falsy one becomes the empty list. */
  function CoerceList(v: Value): (r: Value)
    ensures r.VList?
    ensures v.VList? ==> r == v
    ensures !v.VList? ==> r == if Truthy(v) then VList([v]) else VList([])
  {
    if v.VList? then v else if Truthy(v) then VList([v]) else VList([])
  }

  function CoerceListField(d: Dict, field: string): Dict {
    match Get(d, field)
    case None => d
    case Some(v) => if v.VList? then d else Put(d, field, CoerceList(v))
  }

  function CoerceListFields(d: Dict, fields: seq<string>): Dict
    decreases |fields|
  {
    if fields == [] then d
    else CoerceListField(CoerceListFields(d, fields[..|fields| - 1]), fields[|fields| - 1])
  }

  /** The outcome of one `sanitize_output` call, and the template's
      contact dict after it. */
  datatype Sanitized = Sanitized(result: Result<Dict>, contact: Dict)

  /** The contact dict of an output whose `contact_info` is still the
      template's (`fallback` otherwise). */
  function ContactOf(d: Dict, fallback: Dict): Dict {
    match Get(d, "contact_info")
    case Some(VDict(c)) => c
    case _ => fallback
  }

  /** `sanitize_output(data)` when the template's contact dict holds
      `contact`. Validation writes the emails into the output's contact
      dict, which is the template's while it is shared. */
  function Sanitize(contact: Dict, data: Dict): (s: Sanitized)
    ensures s.result.Raised? ==> s.result.error == TypeError
  {
    var copied := CopyKeys(Copying(OutputTemplate(contact), contact, true), data, OutputKeys);
    var validated := ValidateEmailFormat(CoerceListFields(copied.out, ListFields));
    var after := if copied.shared && validated.Ok? then ContactOf(validated.value, copied.contact) else copied.contact;
    Sanitized(validated, after)
  }

  /** The module-level `output_template`: the only part of it a call can
      change is its `contact_info` dict, which every shallow copy shares. */
  class Template {
    var contact: Dict

    predicate Valid()
      reads this
    {
      KeysOf(contact) == ContactKeys
    }

    constructor()
      ensures Valid() && contact == PristineContact
    {
      contact := PristineContact;
    }

    /** The nested loop of sanitize_output: every truthy value `given`
        holds for a contact key is written into the template's contact dict. */
    method MergeContactInto(given: Dict)
      requires Valid()
      modifies this
      ensures Valid()
      ensures contact == MergeContact(old(contact), given, ContactKeys)
    {
      var j := 0;
      while j < |ContactKeys|
        invariant 0 <= j <= |ContactKeys|
        invariant contact == MergeContact(old(contact), given, ContactKeys[..j])
        invariant Valid()
      {
        assert ContactKeys[..j + 1][..j] == ContactKeys[..j];
        var value := Get(given, ContactKeys[j]);
        if value.Some? && Truthy(value.value) {
          KeysOfHasKey(contact, ContactKeys[j]);
          contact := Put(contact, ContactKeys[j], value.value);
        }
        j := j + 1;
      }
      assert ContactKeys[..j] == ContactKeys;
    }

    /** `sanitize_output(data)` */
    method SanitizeOutput(data: Dict) returns (r: Result<Dict>)
      requires Valid()
      modifies this
      ensures Valid()
      ensures r == Sanitize(old(contact), data).result
      ensures contact == Sanitize(old(contact), data).contact
    {
      ghost var start := Copying(OutputTemplate(contact), contact, true);
      var sanitized := OutputTemplate(contact);
      var shared := true;
      var i := 0;
      while i < |OutputKeys|
        invariant 0 <= i <= |OutputKeys|
        invariant Copying(sanitized, contact, shared) == CopyKeys(start, data, OutputKeys[..i])
        invariant Valid()
      {
        assert OutputKeys[..i + 1][..i] == OutputKeys[..i];
        var key := OutputKeys[i];
        var given := Get(data, key);
        if given.Some? && given.value != VNull {
          if key == "contact_info" && given.value.VDict? {
            MergeContactInto(given.value.entries);
            sanitized := Put(sanitized, key, VDict(contact));
          } else {
            sanitized := Put(sanitized, key, given.value);
            if key == "contact_info" {
              shared := false;
            }
          }
        }
        i := i + 1;
      }
      assert OutputKeys[..i] == OutputKeys;
      SharedAfterCopy(start, data, OutputKeys);
      sanitized := CoerceListsOf(sanitized);
      CoerceListFieldsOther(CopyKeys(start, data, OutputKeys).out, ListFields, "contact_info");
      r := ValidateEmailFormat(sanitized);
      if shared && r.Ok? {
        ValidateEmailFormatEffect(sanitized);
        WithValidEmailsEffect(contact);
        contact := ContactOf(r.value, contact);
      }
    }
  }

  /** The list-coercion loop of sanitize_output. */
  method CoerceListsOf(d: Dict) returns (r: Dict)
    ensures r == CoerceListFields(d, ListFields)
  {
    r := d;
    var i := 0;
    while i < |ListFields|
      invariant 0 <= i <= |ListFields|
      invariant r == CoerceListFields(d, ListFields[..i])
    {
      assert ListFields[..i + 1][..i] == ListFields[..i];
      var field := ListFields[i];
      var current := Get(r, field);
      if current.Some? && !current.value.VList? {
        if Truthy(current.value) {
          r := Put(r, field, VList([current.value]));
        } else {
          r := Put(r, field, VList([]));
        }
      }
      i := i + 1;
    }
    assert ListFields[..i] == ListFields;
  }

  /** The list coercion leaves every other key alone. */
  lemma {:induction false} CoerceListFieldsOther(d: Dict, fields: seq<string>, k: string)
    requires forall i :: 0 <= i < |fields| ==> fields[i] != k
    ensures Get(CoerceListFields(d, fields), k) == Get(d, k)
    decreases |fields|
  {
    if fields != [] {
      CoerceListFieldsOther(d, fields[..|fields| - 1], k);
    }
  }

  /** While the contact dict is shared, the output's `contact_info` is it. */
  lemma {:induction false} SharedAfterCopy(st: Copying, data: Dict, keys: seq<string>)
    requires st.shared ==> Get(st.out, "contact_info") == Some(VDict(st.contact))
    ensures var c := CopyKeys(st, data, keys);
      c.shared ==> Get(c.out, "contact_info") == Some(VDict(c.contact))
    decreases |keys|
  {
    if keys != [] {
      SharedAfterCopy(st, data, keys[..|keys| - 1]);
      CopyKeyShared(CopyKeys(st, data, keys[..|keys| - 1]), data, keys[|keys| - 1]);
    }
  }

  /** One copied key keeps the output's `contact_info` the shared dict. */
  lemma CopyKeyShared(st: Copying, data: Dict, key: string)
    requires st.shared ==> Get(st.out, "contact_info") == Some(VDict(st.contact))
    ensures var c := CopyKey(st, data, key);
      c.shared ==> Get(c.out, "contact_info") == Some(VDict(c.contact))
  {
    if key == "contact_info" {
      CopyContactKey(st, data);
    } else {
      CopyPlainKey(st, data, key);
    }
  }

  // ----------------------------------------------------------------------
  // What sanitize_output computes

  const ScalarFields: seq<string> := ["candidate_name", "job_title", "bio"]

  /** The value a copied key ends up with: the data's value when present
      and not None, the template's otherwise. */
  function Picked(data: Dict, key: string, default: Value): Value {
    match Get(data, key)
    case Some(v) => if v != VNull then v else default
    case None => default
  }

  lemma {:induction false} CopyKeysAppend(st: Copying, data: Dict, a: seq<string>, b: seq<string>)
    ensures CopyKeys(st, data, a + b) == CopyKeys(CopyKeys(st, data, a), data, b)
    decreases |b|
  {
    if b == [] {
      assert a + b == a;
    } else {
      assert (a + b)[..|a + b| - 1] == a + b[..|b| - 1];
      CopyKeysAppend(st, data, a, b[..|b| - 1]);
    }
  }

  /** Copying keys other than `contact_info` leaves the contact dict, its
      sharing and the output's `contact_info` alone, and gives each copied
      key its picked value. */
  lemma {:induction false} CopyKeysPlain(st: Copying, data: Dict, keys: seq<string>, k: string)
    requires forall i :: 0 <= i < |keys| ==> keys[i] != "contact_info"
    requires HasKey(st.out, k)
    ensures var c := CopyKeys(st, data, keys);
      && c.contact == st.contact && c.shared == st.shared
      && Get(c.out, "contact_info") == Get(st.out, "contact_info")
      && Get(c.out, k) == Some(if k in keys then Picked(data, k, GetOr(st.out, k, VNull)) else GetOr(st.out, k, VNull))
    decreases |keys|
  {
    if keys != [] {
      var init, key := keys[..|keys| - 1], keys[|keys| - 1];
      CopyKeysPlain(st, data, init, k);
      var mid := CopyKeys(st, data, init);
      CopyPlainKey(mid, data, key);
      CopyPlainKeyValue(mid, data, key, k);
      assert k in keys <==> k in init || k == key;
    }
  }

  /** Copying a key other than `contact_info` gives that key its picked
      value and leaves the others alone. */
  lemma CopyPlainKeyValue(st: Copying, data: Dict, key: string, k: string)
    requires key != "contact_info" && HasKey(st.out, k)
    ensures Get(CopyKey(st, data, key).out, k)
         == if k == key then Some(Picked(data, key, GetOr(st.out, k, VNull))) else Get(st.out, k)
  {
    match Get(data, key)
    case None =>
    case Some(v) =>
      if v != VNull {
        assert CopyKey(st, data, key) == Copying(Put(st.out, key, v), st.contact, st.shared);
        if k != key {
          PutOther(st.out, key, v, k);
        }
      }
  }

  lemma {:induction false} CopyKeysKeys(st: Copying, data: Dict, keys: seq<string>)
    requires forall i :: 0 <= i < |keys| ==> keys[i] in KeysOf(st.out)
    ensures KeysOf(CopyKeys(st, data, keys).out) == KeysOf(st.out)
    decreases |keys|
  {
    if keys != [] {
      CopyKeysKeys(st, data, keys[..|keys| - 1]);
      KeysOfHasKey(CopyKeys(st, data, keys[..|keys| - 1]).out, keys[|keys| - 1]);
    }
  }

  lemma {:induction false} CoerceListFieldsGet(d: Dict, fields: seq<string>, f: string)
    requires HasKey(d, f)
    ensures Get(CoerceListFields(d, fields), f)
            == Some(if f in fields then CoerceList(GetOr(d, f, VNull)) else GetOr(d, f, VNull))
    decreases |fields|
  {
    if fields != [] {
      CoerceListFieldsGet(d, fields[..|fields| - 1], f);
      assert f in fields <==> f in fields[..|fields| - 1] || f == fields[|fields| - 1];
    }
  }

  lemma {:induction false} CoerceListFieldsKeys(d: Dict, fields: seq<string>)
    requires forall i :: 0 <= i < |fields| ==> fields[i] in KeysOf(d)
    ensures KeysOf(CoerceListFields(d, fields)) == KeysOf(d)
    decreases |fields|
  {
    if fields != [] {
      CoerceListFieldsKeys(d, fields[..|fields| - 1]);
      KeysOfHasKey(CoerceListFields(d, fields[..|fields| - 1]), fields[|fields| - 1]);
    }
  }

  /** The contact dict a call leaves in the template and in its output:
      the template's, merged with a given contact dict, emails validated. */
  function MergedContact(contact: Dict, data: Dict): Dict {
    match Get(data, "contact_info")
    case Some(VDict(given)) => WithValidEmails(MergeContact(contact, given, ContactKeys))
    case _ => WithValidEmails(contact)
  }

  /** The copy loop split after `contact_info`: the first two keys, then
      the seven plain ones. */
  lemma CopyKeysSplit(st: Copying, data: Dict)
    ensures CopyKeys(st, data, OutputKeys)
            == CopyKeys(CopyKey(CopyKey(st, data, "candidate_name"), data, "contact_info"), data, OutputKeys[2..])
  {
    assert OutputKeys == OutputKeys[..2] + OutputKeys[2..];
    CopyKeysAppend(st, data, OutputKeys[..2], OutputKeys[2..]);
    assert OutputKeys[..2][..1] == ["candidate_name"] && ["candidate_name"][..0] == [];
  }

  /** Each template key other than `contact_info` ends up with its picked
      value. */
  lemma CopiedField(st: Copying, data: Dict, k: string, d: Value)
    requires k in OutputKeys && k != "contact_info" && Get(st.out, k) == Some(d)
    ensures Get(CopyKeys(st, data, OutputKeys).out, k) == Some(Picked(data, k, d))
  {
    CopyKeysSplit(st, data);
    CopyKeysPlain(CopyKey(CopyKey(st, data, "candidate_name"), data, "contact_info"), data, OutputKeys[2..], k);
  }

  /** The template's keys and values. */
  lemma OutputTemplateFacts(contact: Dict)
    ensures var t := OutputTemplate(contact);
      && KeysOf(t) == OutputKeys
      && Get(t, "contact_info") == Some(VDict(contact))
      && (forall i :: 0 <= i < |ScalarFields| ==> Get(t, ScalarFields[i]) == Some(VStr("")))
      && (forall i :: 0 <= i < |ListFields| ==> Get(t, ListFields[i]) == Some(VList([])))
  {
    var t := OutputTemplate(contact);
    assert KeysOf(t) == OutputKeys;
    forall j | 0 <= j < |t| ensures Get(t, t[j].0) == Some(t[j].1) {
      GetAt(t, j);
    }
    assert t[1].0 == "contact_info";
    assert t[0].0 == "candidate_name" && t[2].0 == "job_title" && t[3].0 == "bio";
    assert t[4].0 == "work_output" && t[5].0 == "skills" && t[6].0 == "education";
    assert t[7].0 == "professional_development" && t[8].0 == "other_info";
  }

  /** `d` is sanitized from `data` field by field: it has exactly the
      template's keys in the template's order; each text field holds the
      data's value when present and not None and the empty string
      otherwise; each list field holds the data's value (or the empty
      list) made a list. */
  predicate FieldsFrom(d: Dict, data: Dict) {
    && KeysOf(d) == OutputKeys
    && (forall i :: 0 <= i < |ScalarFields| ==>
          Get(d, ScalarFields[i]) == Some(Picked(data, ScalarFields[i], VStr(""))))
    && (forall i :: 0 <= i < |ListFields| ==>
          Get(d, ListFields[i]) == Some(CoerceList(Picked(data, ListFields[i], VList([])))))
  }

  /** The output before email validation, field by field. */
  lemma ListedFields(contact: Dict, data: Dict)
    ensures FieldsFrom(CoerceListFields(CopyKeys(Copying(OutputTemplate(contact), contact, true), data, OutputKeys).out, ListFields), data)
  {
    var start := Copying(OutputTemplate(contact), contact, true);
    OutputTemplateFacts(contact);
    CopyKeysKeys(start, data, OutputKeys);
    var copied := CopyKeys(start, data, OutputKeys);
    CoerceListFieldsKeys(copied.out, ListFields);
    forall i | 0 <= i < |ScalarFields|
      ensures Get(CoerceListFields(copied.out, ListFields), ScalarFields[i]) == Some(Picked(data, ScalarFields[i], VStr("")))
    {
      CopiedField(start, data, ScalarFields[i], VStr(""));
      CoerceListFieldsGet(copied.out, ListFields, ScalarFields[i]);
    }
    forall i | 0 <= i < |ListFields|
      ensures Get(CoerceListFields(copied.out, ListFields), ListFields[i]) == Some(CoerceList(Picked(data, ListFields[i], VList([]))))
    {
      CopiedField(start, data, ListFields[i], VList([]));
      CoerceListFieldsGet(copied.out, ListFields, ListFields[i]);
    }
  }

  /** Email validation keeps the field facts. */
  lemma ValidatedFields(d: Dict, data: Dict)
    requires FieldsFrom(d, data)
    ensures ValidateEmailFormat(d).Ok? ==> FieldsFrom(ValidateEmailFormat(d).value, data)
  {
    ValidatedKeeps(d);
  }

  /** What a call returns, field by field, whatever the template's
      contact dict holds. */
  lemma SanitizeFields(contact: Dict, data: Dict)
    ensures var r := Sanitize(contact, data).result;
      r.Ok? ==> FieldsFrom(r.value, data)
  {
    ListedFields(contact, data);
    ValidatedFields(CoerceListFields(CopyKeys(Copying(OutputTemplate(contact), contact, true), data, OutputKeys).out, ListFields), data);
  }

  /** Email validation keeps the keys and every entry but `contact_info`. */
  lemma ValidatedKeeps(d: Dict)
    ensures var r := ValidateEmailFormat(d);
      r.Ok? ==> KeysOf(r.value) == KeysOf(d) && forall k :: k != "contact_info" ==> Get(r.value, k) == Get(d, k)
  {
    ValidateEmailFormatEffect(d);
  }

  /** The value the data gives for contact key `k` (None when the data has
      no contact dict). */
  function GivenContact(data: Dict, k: string): Value {
    match Get(data, "contact_info")
    case Some(VDict(given)) => GetOr(given, k, VNull)
    case _ => VNull
  }

  /** The data replaces `contact_info` outright: a value other than None
      that is not a dict. */
  predicate ReplacesContact(data: Dict) {
    match Get(data, "contact_info")
    case Some(v) => v != VNull && !v.VDict?
    case None => false
  }

  lemma {:induction false} MergeContactGet(contact: Dict, given: Dict, keys: seq<string>, k: string)
    ensures Get(MergeContact(contact, given, keys), k)
            == if k in keys && Truthy(GetOr(given, k, VNull)) then Some(GetOr(given, k, VNull)) else Get(contact, k)
    decreases |keys|
  {
    if keys != [] {
      MergeContactGet(contact, given, keys[..|keys| - 1], k);
      assert k in keys <==> k in keys[..|keys| - 1] || k == keys[|keys| - 1];
    }
  }

  lemma {:induction false} MergeContactKeys(contact: Dict, given: Dict, keys: seq<string>)
    requires forall i :: 0 <= i < |keys| ==> keys[i] in KeysOf(contact)
    ensures KeysOf(MergeContact(contact, given, keys)) == KeysOf(contact)
    decreases |keys|
  {
    if keys != [] {
      MergeContactKeys(contact, given, keys[..|keys| - 1]);
      KeysOfHasKey(MergeContact(contact, given, keys[..|keys| - 1]), keys[|keys| - 1]);
    }
  }

  /** The merged and validated contact dict keeps the template's keys;
      each entry holds the truthy value the data gives for it, or else the
      template's, and the emails are made a list. */
  lemma MergedContactGet(contact: Dict, data: Dict, k: string)
    requires KeysOf(contact) == ContactKeys && k in ContactKeys
    ensures KeysOf(MergedContact(contact, data)) == ContactKeys
    ensures var given := GivenContact(data, k);
      var chosen := if Truthy(given) then given else GetOr(contact, k, VNull);
      Get(MergedContact(contact, data), k) == Some(if k == "email_address" then CoerceEmails(chosen) else chosen)
  {
    KeysOfHasKey(contact, k);
    KeysOfHasKey(contact, "email_address");
    match Get(data, "contact_info")
    case Some(VDict(given)) =>
      MergeContactGet(contact, given, ContactKeys, k);
      MergeContactGet(contact, given, ContactKeys, "email_address");
      MergeContactKeys(contact, given, ContactKeys);
      WithValidEmailsEffect(MergeContact(contact, given, ContactKeys));
    case _ =>
      WithValidEmailsEffect(contact);
  }

  /** After the copy loop: a contact dict given by the data has been merged
      into the shared dict, a non-dict value has replaced it in the output,
      and otherwise the output still holds the template's dict. */
  lemma CopiedContact(st: Copying, data: Dict)
    requires st.shared && Get(st.out, "contact_info") == Some(VDict(st.contact))
    ensures var c := CopyKeys(st, data, OutputKeys);
      && c.shared == !ReplacesContact(data)
      && (ReplacesContact(data) ==> c.contact == st.contact && Get(c.out, "contact_info") == Get(data, "contact_info"))
      && (!ReplacesContact(data) ==> Get(c.out, "contact_info") == Some(VDict(c.contact)))
      && (forall given :: Get(data, "contact_info") == Some(VDict(given)) ==> c.contact == MergeContact(st.contact, given, ContactKeys))
      && (!ReplacesContact(data) && !(Get(data, "contact_info").Some? && Get(data, "contact_info").value.VDict?) ==> c.contact == st.contact)
  {
    CopyKeysSplit(st, data);
    var c1 := CopyKey(st, data, "candidate_name");
    CopyPlainKey(st, data, "candidate_name");
    var early := CopyKey(c1, data, "contact_info");
    CopyContactKey(c1, data);
    CopyKeysPlain(early, data, OutputKeys[2..], "contact_info");
  }

  /** Copying a key other than `contact_info` leaves the contact dict, its
      sharing and the output's `contact_info` alone. */
  lemma CopyPlainKey(st: Copying, data: Dict, key: string)
    requires key != "contact_info"
    ensures var c := CopyKey(st, data, key);
      && c.contact == st.contact && c.shared == st.shared
      && Get(c.out, "contact_info") == Get(st.out, "contact_info")
  {
    match Get(data, key)
    case None =>
    case Some(v) =>
      if v != VNull {
        assert CopyKey(st, data, key) == Copying(Put(st.out, key, v), st.contact, st.shared);
        PutOther(st.out, key, v, "contact_info");
      }
  }

  /** Copying `contact_info`: a dict is merged into the contact dict, which
      the output then holds; another value (not None) replaces it in the
      output and ends the sharing; a missing or None value changes
      nothing. */
  lemma CopyContactKey(st: Copying, data: Dict)
    ensures var c := CopyKey(st, data, "contact_info");
      && c.shared == (st.shared && !ReplacesContact(data))
      && (ReplacesContact(data) ==> c.contact == st.contact && Get(c.out, "contact_info") == Get(data, "contact_info"))
      && (forall given :: Get(data, "contact_info") == Some(VDict(given)) ==>
            c.contact == MergeContact(st.contact, given, ContactKeys) && Get(c.out, "contact_info") == Some(VDict(c.contact)))
      && (!ReplacesContact(data) && !(Get(data, "contact_info").Some? && Get(data, "contact_info").value.VDict?) ==> c == st)
  {
    match Get(data, "contact_info")
    case None =>
    case Some(v) =>
      if v.VDict? {
        var merged := MergeContact(st.contact, v.entries, ContactKeys);
        assert CopyKey(st, data, "contact_info") == Copying(Put(st.out, "contact_info", VDict(merged)), merged, st.shared);
      }
  }

  /** A call's effect on `contact_info`: unless the data replaces it with
      a non-dict value, output and template both end up holding the
      merged, validated contact dict; a replacing value is kept as it is
      (or raises TypeError in validation), and the template is untouched. */
  lemma SanitizeContact(contact: Dict, data: Dict)
    ensures var s := Sanitize(contact, data);
      && (!ReplacesContact(data) ==>
            && s.result.Ok?
            && Get(s.result.value, "contact_info") == Some(VDict(MergedContact(contact, data)))
            && s.contact == MergedContact(contact, data))
      && (ReplacesContact(data) ==>
            var v := Get(data, "contact_info").value;
            && s.contact == contact
            && (s.result == Raised(TypeError) <==> (v.VBool? || v.VInt? || PyIn("email_address", v) == Ok(true)))
            && (s.result.Raised? ==> s.result == Raised(TypeError))
            && (s.result.Ok? ==> Get(s.result.value, "contact_info") == Some(v)))
  {
    var start := Copying(OutputTemplate(contact), contact, true);
    OutputTemplateFacts(contact);
    CopiedContact(start, data);
    var copied := CopyKeys(start, data, OutputKeys);
    CoerceListFieldsOther(copied.out, ListFields, "contact_info");
    var listed := CoerceListFields(copied.out, ListFields);
    ValidateEmailFormatEffect(listed);
  }

  /** As written, a contact value one call writes stays in the template
      and turns up in the next call's output: a location given to the
      first call is the location of a second call whose data gives none. */
  lemma SanitizeLeaksAcrossCalls(contact: Dict, first: Dict, second: Dict)
    requires KeysOf(contact) == ContactKeys
    requires Truthy(GivenContact(first, "location"))
    requires !ReplacesContact(second) && !Truthy(GivenContact(second, "location"))
    ensures var s1 := Sanitize(contact, first);
      var s2 := Sanitize(s1.contact, second);
      && s2.result.Ok?
      && Get(s2.result.value, "contact_info") == Some(VDict(s2.contact))
      && Get(s2.contact, "location") == Some(GivenContact(first, "location"))
  {
    SanitizeContact(contact, first);
    MergedContactGet(contact, first, "location");
    var s1 := Sanitize(contact, first);
    SanitizeContact(s1.contact, second);
    MergedContactGet(s1.contact, second, "location");
  }

  /** The leak on concrete data: after `{"contact_info": {"location":
      "Paris"}}`, sanitizing `{}` yields location "Paris". */
  lemma SanitizeLeakExample()
    ensures var first := Sanitize(PristineContact, [("contact_info", VDict([("location", VStr("Paris"))]))]);
      var second := Sanitize(first.contact, []);
      second.result.Ok? && Get(second.contact, "location") == Some(VStr("Paris"))
  {
    assert KeysOf(PristineContact) == ContactKeys;
    SanitizeLeaksAcrossCalls(PristineContact, [("contact_info", VDict([("location", VStr("Paris"))]))], []);
  }

  /** `sanitize_output` with the deep copy its comment announces: every
      call starts from the module's pristine contact dict. */
  function SanitizeFresh(data: Dict): Result<Dict> {
    Sanitize(PristineContact, data).result
  }

  /** `c` is the template contact dict `base` merged with the data's
      contact values and validated: the template's keys, each holding the
      truthy value the data gives or else the template's, the emails made
      a list. */
  predicate ContactFrom(c: Dict, base: Dict, data: Dict) {
    && KeysOf(c) == ContactKeys
    && forall i :: 0 <= i < |ContactKeys| ==>
         var k := ContactKeys[i];
         var given := GivenContact(data, k);
         var chosen := if Truthy(given) then given else GetOr(base, k, VNull);
         Get(c, k) == Some(if k == "email_address" then CoerceEmails(chosen) else chosen)
  }

  lemma MergedContactFrom(contact: Dict, data: Dict)
    requires KeysOf(contact) == ContactKeys
    ensures ContactFrom(MergedContact(contact, data), contact, data)
  {
    forall i | 0 <= i < |ContactKeys|
      ensures var k := ContactKeys[i];
        var given := GivenContact(data, k);
        var chosen := if Truthy(given) then given else GetOr(contact, k, VNull);
        Get(MergedContact(contact, data), k) == Some(if k == "email_address" then CoerceEmails(chosen) else chosen)
    {
      MergedContactGet(contact, data, ContactKeys[i]);
    }
    MergedContactGet(contact, data, "location");
  }

  /** Without contact values in the data, the pristine contact dict comes
      through unchanged. */
  lemma PristineUnmerged(data: Dict)
    requires !HasKey(data, "contact_info")
    ensures MergedContact(PristineContact, data) == PristineContact
  {
    assert PristineContact[2].0 == "email_address";
    GetAt(PristineContact, 2);
  }

  /** With a fresh template the output depends on the data alone: its
      fields as the data gives them, and, unless the data replaces the
      contact dict, a contact dict holding the truthy values the data gives
      and the template's empty defaults for the rest; data without contact
      values gets the pristine contact dict, whatever earlier calls were
      given. */
  lemma SanitizeFreshContact(data: Dict)
    ensures var r := SanitizeFresh(data);
      && (r.Ok? ==> FieldsFrom(r.value, data))
      && (!ReplacesContact(data) ==>
            && r.Ok?
            && Get(r.value, "contact_info") == Some(VDict(MergedContact(PristineContact, data)))
            && ContactFrom(MergedContact(PristineContact, data), PristineContact, data))
      && (!HasKey(data, "contact_info") ==> r.Ok? && Get(r.value, "contact_info") == Some(VDict(PristineContact)))
  {
    assert KeysOf(PristineContact) == ContactKeys;
    SanitizeFields(PristineContact, data);
    SanitizeContact(PristineContact, data);
    MergedContactFrom(PristineContact, data);
    if !HasKey(data, "contact_info") {
      PristineUnmerged(data);
    }
  }

  // ----------------------------------------------------------------------
  // Normalising twice

  /** The text and list fields of sanitized output: the template's keys
      in order, no text field None, every list field a list. */
  predicate NormalFields(d: Dict) {
    && KeysOf(d) == OutputKeys
    && (forall i :: 0 <= i < |ScalarFields| ==> GetOr(d, ScalarFields[i], VNull) != VNull)
    && (forall i :: 0 <= i < |ListFields| ==> GetOr(d, ListFields[i], VNull).VList?)
  }

  /** A contact dict that merging into the template's `base` reproduces:
      the contact keys, the emails a list, and every falsy entry the one
      `base` holds. */
  predicate SettledContact(c: Dict, base: Dict) {
    && KeysOf(c) == ContactKeys
    && Get(c, "email_address").Some? && Get(c, "email_address").value.VList?
    && forall i :: 0 <= i < |ContactKeys| ==>
         Truthy(GetOr(c, ContactKeys[i], VNull)) || Get(c, ContactKeys[i]) == Get(base, ContactKeys[i])
  }

  /** The contact entry of sanitized output when the template's contact
      dict holds `base`: a settled dict, or a value other than None that
      validation accepts as it is. */
  predicate NormalContact(d: Dict, base: Dict) {
    match GetOr(d, "contact_info", VNull)
    case VDict(c) => SettledContact(c, base)
    case v => v != VNull && PyIn("email_address", v) == Ok(false)
  }

  lemma MergeSettled(base: Dict, c: Dict)
    requires KeysOf(base) == ContactKeys && SettledContact(c, base)
    ensures MergeContact(base, c, ContactKeys) == c
  {
    var m := MergeContact(base, c, ContactKeys);
    MergeContactKeys(base, c, ContactKeys);
    forall i | 0 <= i < |m|
      ensures Get(m, m[i].0) == Get(c, m[i].0)
    {
      var k := ContactKeys[i];
      assert m[i].0 == k;
      KeysOfHasKey(c, k);
      MergeContactGet(base, c, ContactKeys, k);
    }
    DictExt(m, c);
  }

  /** Two outputs with the template's keys that agree on every field are
      equal. */
  lemma SameOutput(a: Dict, b: Dict)
    requires KeysOf(a) == OutputKeys && KeysOf(b) == OutputKeys
    requires forall i :: 0 <= i < |ScalarFields| ==> Get(a, ScalarFields[i]) == Get(b, ScalarFields[i])
    requires forall i :: 0 <= i < |ListFields| ==> Get(a, ListFields[i]) == Get(b, ListFields[i])
    requires Get(a, "contact_info") == Get(b, "contact_info")
    ensures a == b
  {
    assert a[0].0 == ScalarFields[0] && a[2].0 == ScalarFields[1] && a[3].0 == ScalarFields[2];
    assert a[4].0 == ListFields[3] && a[5].0 == ListFields[0] && a[6].0 == ListFields[4];
    assert a[7].0 == ListFields[1] && a[8].0 == ListFields[2] && a[1].0 == "contact_info";
    DictExt(a, b);
  }

  /** Sanitizing output that is already in normal form returns it as it
      is and leaves the template holding its contact dict. */
  lemma SanitizeSettled(base: Dict, d: Dict)
    requires KeysOf(base) == ContactKeys
    requires NormalFields(d) && NormalContact(d, base)
    ensures Sanitize(base, d) == Sanitized(Ok(d), ContactOf(d, base))
  {
    SanitizeFields(base, d);
    SanitizeContact(base, d);
    var t := Sanitize(base, d);
    assert OutputKeys[1] == "contact_info";
    KeysOfHasKey(d, "contact_info");
    var v := GetOr(d, "contact_info", VNull);
    if v.VDict? {
      MergeSettled(base, v.entries);
      assert MergedContact(base, d) == v.entries;
    }
    assert t.result.Ok?;
    forall i | 0 <= i < |ScalarFields|
      ensures Get(t.result.value, ScalarFields[i]) == Get(d, ScalarFields[i])
    {
      assert ScalarFields[i] in OutputKeys;
      KeysOfHasKey(d, ScalarFields[i]);
    }
    forall i | 0 <= i < |ListFields|
      ensures Get(t.result.value, ListFields[i]) == Get(d, ListFields[i])
    {
      assert ListFields[i] in OutputKeys;
      KeysOfHasKey(d, ListFields[i]);
    }
    SameOutput(t.result.value, d);
  }

  /** Every call's output is in normal form for the contact dict it
      leaves in the template, which is the output's own contact dict
      unless the data replaced it. */
  lemma SanitizeNormalizes(contact: Dict, data: Dict)
    requires KeysOf(contact) == ContactKeys
    ensures var s := Sanitize(contact, data);
      s.result.Ok? ==>
        && NormalFields(s.result.value) && NormalContact(s.result.value, s.contact)
        && KeysOf(s.contact) == ContactKeys && ContactOf(s.result.value, s.contact) == s.contact
  {
    SanitizeFields(contact, data);
    SanitizeContact(contact, data);
    MergedContactGet(contact, data, "email_address");
  }

  /** `sanitize_output` is idempotent: sanitizing its output again, with
      the template as the first call left it, returns the same output and
      leaves the template as it was. */
  lemma SanitizeIdempotent(contact: Dict, data: Dict)
    requires KeysOf(contact) == ContactKeys
    ensures var s := Sanitize(contact, data);
      s.result.Ok? ==>
        var t := Sanitize(s.contact, s.result.value);
        t.result == s.result && t.contact == s.contact
  {
    var s := Sanitize(contact, data);
    SanitizeNormalizes(contact, data);
    if s.result.Ok? {
      SanitizeSettled(s.contact, s.result.value);
    }
  }

  /** The merged contact dict of a fresh call is settled against the
      pristine one: its falsy entries are the pristine defaults. */
  lemma FreshContactSettled(data: Dict)
    ensures SettledContact(MergedContact(PristineContact, data), PristineContact)
  {
    assert KeysOf(PristineContact) == ContactKeys;
    MergedContactFrom(PristineContact, data);
    forall i | 0 <= i < |PristineContact|
      ensures Get(PristineContact, PristineContact[i].0) == Some(PristineContact[i].1)
    {
      GetAt(PristineContact, i);
    }
    assert ContactKeys[2] == "email_address";
  }

  /** With a fresh template per call, sanitizing is idempotent too. */
  lemma SanitizeFreshIdempotent(data: Dict)
    ensures var r := SanitizeFresh(data);
      r.Ok? ==> SanitizeFresh(r.value) == r
  {
    assert KeysOf(PristineContact) == ContactKeys;
    var r := SanitizeFresh(data);
    SanitizeNormalizes(PristineContact, data);
    SanitizeContact(PristineContact, data);
    FreshContactSettled(data);
    if r.Ok? {
      SanitizeSettled(PristineContact, r.value);
    }
  }

  // ----------------------------------------------------------------------
  // is_valid_resume_data and get_resume_statistics

  const RequiredFields: seq<string> := ["candidate_name", "job_title"]

  /** Every required field is present with a truthy value. */
  predicate HasRequiredFields(data: Dict) {
    forall i :: 0 <= i < |RequiredFields| ==> Truthy(GetOr(data, RequiredFields[i], VNull))
  }

  /** `is_valid_resume_data(data)` */
  method IsValidResumeData(data: Dict) returns (valid: bool)
    ensures valid <==> HasRequiredFields(data)
  {
    var i := 0;
    while i < |RequiredFields|
      invariant 0 <= i <= |RequiredFields|
      invariant forall j :: 0 <= j < i ==> Truthy(GetOr(data, RequiredFields[j], VNull))
    {
      var field := RequiredFields[i];
      if !HasKey(data, field) || !Truthy(GetOr(data, field, VNull)) {
        return false;
      }
      i := i + 1;
    }
    return true;
  }

  /** Sanitizing neither makes data valid nor invalid: a required field is
      truthy in the output exactly when it is in the data. */
  lemma SanitizeKeepsValidity(contact: Dict, data: Dict)
    ensures var r := Sanitize(contact, data).result;
      r.Ok? ==> (HasRequiredFields(r.value) <==> HasRequiredFields(data))
  {
    SanitizeFields(contact, data);
    var r := Sanitize(contact, data).result;
    if r.Ok? {
      assert ScalarFields[0] == RequiredFields[0] && ScalarFields[1] == RequiredFields[1];
    }
  }

  datatype Statistics = Statistics(
    workExperienceCount: nat,
    educationCount: nat,
    skillsCount: nat,
    certificationsCount: nat,
    otherInfoCount: nat)

  /** The fields `get_resume_statistics` counts, in the order it counts
      them. */
  const CountedFields: seq<string> := ["work_output", "education", "skills", "professional_development", "other_info"]

  /** `len(data.get(key, []))` */
  function CountOf(data: Dict, key: string): Result<nat> {
    PyLen(GetOr(data, key, VList([])))
  }

  /** `get_resume_statistics(data)`: the counts in the order the dict
      literal evaluates them; a value without a length (None, a number, a
      boolean) raises TypeError. */
  function GetResumeStatistics(data: Dict): (r: Result<Statistics>)
    ensures r.Raised? ==> r.error == TypeError
    ensures r.Ok? <==> forall i :: 0 <= i < |CountedFields| ==> CountOf(data, CountedFields[i]).Ok?
  {
    assert CountedFields[0] == "work_output" && CountedFields[1] == "education" && CountedFields[2] == "skills";
    assert CountedFields[3] == "professional_development" && CountedFields[4] == "other_info";
    var work := CountOf(data, "work_output");
    var education := CountOf(data, "education");
    var skills := CountOf(data, "skills");
    var certifications := CountOf(data, "professional_development");
    var other := CountOf(data, "other_info");
    if work.Raised? then Raised(work.error)
    else if education.Raised? then Raised(education.error)
    else if skills.Raised? then Raised(skills.error)
    else if certifications.Raised? then Raised(certifications.error)
    else if other.Raised? then Raised(other.error)
    else Ok(Statistics(work.value, education.value, skills.value, certifications.value, other.value))
  }

  /** The number of items a list field of sanitized output holds. */
  function SanitizedCount(data: Dict, field: string): nat {
    |CoerceList(Picked(data, field, VList([]))).items|
  }

  /** Statistics of sanitized output never raise and count the items of
      its list fields. */
  lemma StatisticsOfSanitized(contact: Dict, data: Dict)
    ensures var r := Sanitize(contact, data).result;
      r.Ok? ==> GetResumeStatistics(r.value) == Ok(Statistics(
        SanitizedCount(data, "work_output"), SanitizedCount(data, "education"),
        SanitizedCount(data, "skills"), SanitizedCount(data, "professional_development"),
        SanitizedCount(data, "other_info")))
  {
    SanitizeFields(contact, data);
    var r := Sanitize(contact, data).result;
    if r.Ok? {
      StatisticsOfFields(r.value, data);
    }
  }

  lemma StatisticsOfFields(d: Dict, data: Dict)
    requires FieldsFrom(d, data)
    ensures GetResumeStatistics(d) == Ok(Statistics(
      SanitizedCount(data, "work_output"), SanitizedCount(data, "education"),
      SanitizedCount(data, "skills"), SanitizedCount(data, "professional_development"),
      SanitizedCount(data, "other_info")))
  {
    assert ListFields[0] == "skills" && ListFields[1] == "professional_development";
    assert ListFields[2] == "other_info" && ListFields[3] == "work_output" && ListFields[4] == "education";
  }

  /** A counted field holding None makes the statistics raise TypeError,
      and data without any counted field has all counts zero. */
  lemma StatisticsEdgeCases(data: Dict)
    ensures Get(data, "work_output") == Some(VNull) ==> GetResumeStatistics(data) == Raised(TypeError)
    ensures (forall k :: k in ["work_output", "education", "skills", "professional_development", "other_info"] ==> !HasKey(data, k))
            ==> GetResumeStatistics(data) == Ok(Statistics(0, 0, 0, 0, 0))
  {
    var keys := ["work_output", "education", "skills", "professional_development", "other_info"];
    if forall k :: k in keys ==> !HasKey(data, k) {
      assert keys[0] in keys && keys[1] in keys && keys[2] in keys && keys[3] in keys && keys[4] in keys;
    }
  }
}
