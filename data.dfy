/** Record types shared by the lounge pages, and the seed fixtures of the
    member directory and the access log (src/lib/data.ts). */
module Data {

  datatype Option<T> = None | Some(value: T)

  /** Membership entitlement level; the type admits exactly these three. */
  datatype Tier = Platinum | Gold | Silver

  datatype MemberStatus = Active | Expired | Suspended

  datatype LogStatus = Granted | DeniedEntry | Pending

  datatype Member = Member(
    id: string,
    name: string,
    email: string,
    tier: Tier,
    memberSince: string,
    flights: nat,
    photoUrl: string,
    passportNumber: string,
    nationality: string,
    lastAccess: Option<string>,
    status: MemberStatus)

  /** One verification attempt. The tier is a free string (the denied entry
      carries "-"), and the confidence is kept in tenths of a percent. */
  datatype AccessLog = AccessLog(
    id: string,
    memberId: string,
    memberName: string,
    tier: string,
    timestamp: string,
    status: LogStatus,
    confidence: int,
    photoUrl: string)

  /** The spelling of a tier in the store and in the UI. */
  function TierName(t: Tier): string
  {
    match t
    case Platinum => "Platinum"
    case Gold => "Gold"
    case Silver => "Silver"
  }

  /** Reads a tier back from its spelling; any other string is not a tier. */
  function ParseTier(s: string): (r: Option<Tier>)
    ensures r.Some? <==> s in {"Platinum", "Gold", "Silver"}
  {
    if s == "Platinum" then Some(Platinum)
    else if s == "Gold" then Some(Gold)
    else if s == "Silver" then Some(Silver)
    else None
  }

  /** Every tier's spelling reads back as that tier, so spellings are distinct. */
  lemma TierNameRoundTrip(t: Tier)
    ensures ParseTier(TierName(t)) == Some(t)
    ensures forall u: Tier :: TierName(u) == TierName(t) ==> u == t
  {
  }

  /** The member whose id is `id`, the first one if several share it. */
  function FindMember(ms: seq<Member>, id: string): (r: Option<Member>)
    ensures r.Some? ==> r.value in ms && r.value.id == id
    ensures r.Some? ==>
      exists i :: 0 <= i < |ms| && ms[i] == r.value && forall j :: 0 <= j < i ==> ms[j].id != id
    ensures r.None? <==> forall i :: 0 <= i < |ms| ==> ms[i].id != id
  {
    if ms == [] then None
    else if ms[0].id == id then Some(ms[0])
    else FindMember(ms[1..], id)
  }

  predicate IdsDistinct(ms: seq<Member>)
  {
    forall i, j :: 0 <= i < j < |ms| ==> ms[i].id != ms[j].id
  }

  predicate LogIdsDistinct(logs: seq<AccessLog>)
  {
    forall i, j :: 0 <= i < j < |logs| ==> logs[i].id != logs[j].id
  }

  /** A granted entry names a member of `ms` and repeats that member's name,
      tier and portrait. */
  predicate RefersTo(l: AccessLog, ms: seq<Member>)
  {
    var m := FindMember(ms, l.memberId);
    m.Some? && m.value.name == l.memberName && TierName(m.value.tier) == l.tier
    && m.value.photoUrl == l.photoUrl
  }

  const AlexandraPhoto := "https://images.unsplash.com/photo-1494790108755-2616b612b47c?w=200&h=200&fit=crop&crop=face"
  const JamesPhoto := "https://images.unsplash.com/photo-1507003211169-0a1dd7228f2d?w=200&h=200&fit=crop&crop=face"
  const SophiaPhoto := "https://images.unsplash.com/photo-1438761681033-6461ffad8d80?w=200&h=200&fit=crop&crop=face"
  const MarcoPhoto := "https://images.unsplash.com/photo-1500648767791-00dcc994a43e?w=200&h=200&fit=crop&crop=face"
  const PriyaPhoto := "https://images.unsplash.com/photo-1534528741775-53994a69daeb?w=200&h=200&fit=crop&crop=face"
  const ErikPhoto := "https://images.unsplash.com/photo-1472099645785-5658abf4ff4e?w=200&h=200&fit=crop&crop=face"

  const MockMembers: seq<Member> := [
    Member("1", "Alexandra Chen", "a.chen@email.com", Platinum, "2019-03-15", 247, AlexandraPhoto,
           "E8291034", "Singapore", Some("2026-02-27 08:32"), Active),
    Member("2", "James Morrison", "j.morrison@email.com", Platinum, "2018-07-22", 312, JamesPhoto,
           "P4517823", "United Kingdom", Some("2026-02-27 07:15"), Active),
    Member("3", "Sophia Nakamura", "s.nakamura@email.com", Gold, "2021-01-10", 89, SophiaPhoto,
           "TK7291045", "Japan", Some("2026-02-26 19:45"), Active),
    Member("4", "Marco Rossi", "m.rossi@email.com", Gold, "2020-11-03", 134, MarcoPhoto,
           "YA2038471", "Italy", Some("2026-02-27 06:50"), Active),
    Member("5", "Priya Sharma", "p.sharma@email.com", Silver, "2023-05-18", 42, PriyaPhoto,
           "J8103752", "India", None, Active),
    Member("6", "Erik Lindstr\U{221a}\U{2202}m", "e.lindstrom@email.com", Silver, "2024-02-01", 18, ErikPhoto,
           "SE9281034", "Sweden", None, Expired)
  ]

  const MockAccessLogs: seq<AccessLog> := [
    AccessLog("l1", "1", "Alexandra Chen", "Platinum", "2026-02-27 08:32:15", Granted, 987, AlexandraPhoto),
    AccessLog("l2", "2", "James Morrison", "Platinum", "2026-02-27 07:15:42", Granted, 962, JamesPhoto),
    AccessLog("l3", "0", "Unknown", "-", "2026-02-27 06:58:03", DeniedEntry, 321, ""),
    AccessLog("l4", "4", "Marco Rossi", "Gold", "2026-02-27 06:50:11", Granted, 948, MarcoPhoto),
    AccessLog("l5", "3", "Sophia Nakamura", "Gold", "2026-02-26 19:45:30", Granted, 971, SophiaPhoto)
  ]

  /** The six seed members have pairwise distinct ids. */
  lemma SeedMemberIdsDistinct()
    ensures |MockMembers| == 6 && IdsDistinct(MockMembers)
  {
  }

  /** The seed log ids are distinct and every confidence is a percentage. */
  lemma SeedLogsWellFormed()
    ensures LogIdsDistinct(MockAccessLogs)
    ensures forall i :: 0 <= i < |MockAccessLogs| ==> 0 <= MockAccessLogs[i].confidence <= 1000
  {
  }

  /** Every granted seed entry names a seed member and copies its name, tier
      and portrait; granted entries are above 80% and the denied one below. */
  lemma SeedGrantedLogsReferToMembers()
    ensures forall i :: 0 <= i < |MockAccessLogs| && MockAccessLogs[i].status == Granted ==>
      RefersTo(MockAccessLogs[i], MockMembers) && MockAccessLogs[i].confidence > 800
    ensures forall i :: 0 <= i < |MockAccessLogs| && MockAccessLogs[i].status == DeniedEntry ==>
      MockAccessLogs[i].confidence < 800
  {
    forall i | 0 <= i < |MockAccessLogs| && MockAccessLogs[i].status == Granted
      ensures RefersTo(MockAccessLogs[i], MockMembers) && MockAccessLogs[i].confidence > 800
    {
      var k := if i == 0 then 0 else if i == 1 then 1 else if i == 3 then 3 else 2;
      FindSeedMember(k);
    }
  }

  /** Looking up the id of seed member `k` finds that member. */
  lemma FindSeedMember(k: nat)
    requires k < |MockMembers|
    ensures FindMember(MockMembers, MockMembers[k].id) == Some(MockMembers[k])
  {
    SeedMemberIdsDistinct();
    IdsDistinctFindsEach(MockMembers, k);
  }

  /** In a roster with distinct ids, looking up a member's id finds it. */
  lemma IdsDistinctFindsEach(ms: seq<Member>, k: nat)
    requires IdsDistinct(ms) && k < |ms|
    ensures FindMember(ms, ms[k].id) == Some(ms[k])
  {
  }

  /** The single denied entry is the "Unknown" sentinel, whose id "0" names no member. */
  lemma SeedDeniedLogIsSentinel()
    ensures forall i :: 0 <= i < |MockAccessLogs| && MockAccessLogs[i].status == DeniedEntry ==>
      i == 2 && MockAccessLogs[i].memberId == "0" && MockAccessLogs[i].memberName == "Unknown"
      && MockAccessLogs[i].tier == "-" && MockAccessLogs[i].photoUrl == ""
      && ParseTier(MockAccessLogs[i].tier).None?
      && FindMember(MockMembers, MockAccessLogs[i].memberId).None?
  {
  }
}
