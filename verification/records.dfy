/**
 * The user rows the repository hands back, the name metadata joined to them by
 * id, and the two output profiles (summary and detail) with the ordered
 * key/value arrays the endpoints build from them.
 */
module Records {
  import opened Wrappers
  import opened PhpValues

  type Id = nat

  /** One fetched user row: the fields the endpoints read with `$users->field(...)`. */
  datatype Row = Row(
    id: Id,
    userLogin: string,
    userUrl: string,
    hrJobTitle: string,
    workingTitle: string,
    department: string,
    officePhone: string,
    userEmail: string,
    building: string,
    office: string,
    mailStop: string,
    labgroupSite: string,
    education: string,
    otherInfo: string,
    photo: string,
    vita: string,
    privacyFlag: Value)

  /** The user metadata store: per user id, every meta key with its list of values. */
  type Meta = map<Id, map<string, seq<string>>>

  /** The metadata holds a first value for both `first_name` and `last_name` of `id`. */
  predicate HasNames(meta: Meta, id: Id) {
    id in meta
    && "first_name" in meta[id] && |meta[id]["first_name"]| > 0
    && "last_name" in meta[id] && |meta[id]["last_name"]| > 0
  }

  function FirstName(meta: Meta, id: Id): string
    requires HasNames(meta, id)
  {
    meta[id]["first_name"][0]
  }

  function LastName(meta: Meta, id: Id): string
    requires HasNames(meta, id)
  {
    meta[id]["last_name"][0]
  }

  /** The list-endpoint profile, fields in the order the source declares them. */
  datatype Summary = Summary(
    username: string,
    firstName: string,
    lastName: string,
    hrJobTitle: string,
    department: string,
    building: string)

  /** The single-user profile, fields in the order the source declares them. */
  datatype Detail = Detail(
    firstName: string,
    lastName: string,
    website: string,
    hrJobTitle: string,
    workingTitle: string,
    department: string,
    officePhone: string,
    userEmail: string,
    building: string,
    office: string,
    mailStop: string,
    labgroupSite: string,
    education: string,
    otherInfo: string,
    photo: string,
    vita: string,
    privacyFlag: Value)

  /** Summary projection: the names come from the metadata, the rest from the row. */
  function Summarize(r: Row, firstName: string, lastName: string): Summary {
    Summary(r.userLogin, firstName, lastName, r.hrJobTitle, r.department, r.building)
  }

  /** Detail projection: the names come from the metadata, the rest from the row. */
  function Detailed(r: Row, firstName: string, lastName: string): Detail {
    Detail(firstName, lastName, r.userUrl, r.hrJobTitle, r.workingTitle, r.department,
           r.officePhone, r.userEmail, r.building, r.office, r.mailStop, r.labgroupSite,
           r.education, r.otherInfo, r.photo, r.vita, r.privacyFlag)
  }

  /** An ordered PHP associative array, as handed to the encoder. */
  type Entries = seq<(string, Value)>

  const SummaryKeys: seq<string> :=
    ["username", "first_name", "last_name", "hr_job_title", "department", "building"]

  const DetailKeys: seq<string> :=
    ["first_name", "last_name", "website", "hr_job_title", "working_title", "department",
     "office_phone", "user_email", "building", "office", "mail_stop", "labgroup_site",
     "education", "other_info", "photo", "vita", "privacy_flag"]

  predicate HasKeys(e: Entries, keys: seq<string>) {
    |e| == |keys| && forall k :: 0 <= k < |e| ==> e[k].0 == keys[k]
  }

  /** The array literal a summary is built as: its keys are exactly SummaryKeys, in order. */
  function SummaryEntries(s: Summary): (e: Entries)
    ensures HasKeys(e, SummaryKeys)
  {
    [("username", Str(s.username)), ("first_name", Str(s.firstName)),
     ("last_name", Str(s.lastName)), ("hr_job_title", Str(s.hrJobTitle)),
     ("department", Str(s.department)), ("building", Str(s.building))]
  }

  /** The array literal a detail is built as: its keys are exactly DetailKeys, in order. */
  function DetailEntries(d: Detail): (e: Entries)
    ensures HasKeys(e, DetailKeys)
  {
    [("first_name", Str(d.firstName)), ("last_name", Str(d.lastName)),
     ("website", Str(d.website)), ("hr_job_title", Str(d.hrJobTitle)),
     ("working_title", Str(d.workingTitle)), ("department", Str(d.department)),
     ("office_phone", Str(d.officePhone)), ("user_email", Str(d.userEmail)),
     ("building", Str(d.building)), ("office", Str(d.office)),
     ("mail_stop", Str(d.mailStop)), ("labgroup_site", Str(d.labgroupSite)),
     ("education", Str(d.education)), ("other_info", Str(d.otherInfo)),
     ("photo", Str(d.photo)), ("vita", Str(d.vita)), ("privacy_flag", d.privacyFlag)]
  }

  /** Reads a summary back from an array with the summary keys in order and string values. */
  function SummaryFromEntries(e: Entries): Option<Summary> {
    if HasKeys(e, SummaryKeys) && forall k :: 0 <= k < |e| ==> e[k].1.Str? then
      Some(Summary(e[0].1.s, e[1].1.s, e[2].1.s, e[3].1.s, e[4].1.s, e[5].1.s))
    else
      None
  }

  /** Reads a detail back from an array with the detail keys in order. */
  function DetailFromEntries(e: Entries): Option<Detail> {
    if HasKeys(e, DetailKeys) && forall k :: 0 <= k < 16 ==> e[k].1.Str? then
      Some(Detail(e[0].1.s, e[1].1.s, e[2].1.s, e[3].1.s, e[4].1.s, e[5].1.s, e[6].1.s,
                  e[7].1.s, e[8].1.s, e[9].1.s, e[10].1.s, e[11].1.s, e[12].1.s,
                  e[13].1.s, e[14].1.s, e[15].1.s, e[16].1))
    else
      None
  }

  /** Every value of a summary survives its array form, keyed as declared. */
  lemma SummaryEntriesRoundTrip(s: Summary)
    ensures SummaryFromEntries(SummaryEntries(s)) == Some(s)
  {
    var e := SummaryEntries(s);
    assert forall k :: 0 <= k < |e| ==> e[k].1.Str?;
  }

  /** Every value of a detail survives its array form, keyed as declared. */
  lemma DetailEntriesRoundTrip(d: Detail)
    ensures DetailFromEntries(DetailEntries(d)) == Some(d)
  {
    var e := DetailEntries(d);
    assert forall k :: 0 <= k < 16 ==> e[k].1.Str?;
  }
}
