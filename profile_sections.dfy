/**
  `createProfilesSections` of the user list: a flat list of user profiles
  becomes the sections of a section list. With channel members at hand the
  profiles are split into channel admins and members; without them they are
  grouped by the upper-cased first character of their username.

  The method `CreateProfilesSections` follows the source loop by loop and is
  proved equal to the function `ProfilesSections`; module `SectionTheorems`
  states what that function computes in terms that do not mention maps.
 */
module ProfileSections {
  import opened Wrappers
  import opened OrderedMap
  import opened Grouping

  /** A field value of a profile or channel-member object. */
  datatype Value = Str(s: string) | Bool(b: bool) | Num(n: int) | Null

  /** A plain object: field name to field value. */
  type Record = map<string, Value>

  /** A user profile: its `id`, its `username`, and its other fields. */
  datatype Profile = Profile(id: string, username: string, rest: Record)

  /** A channel membership: `user_id`, `scheme_admin`, and its other fields. */
  datatype Member = Member(userId: string, schemeAdmin: bool, rest: Record)

  /** One entry of the result: `first`, `id` (the section title) and `data` (the rows). */
  datatype Section = Section(first: bool, id: string, data: seq<Record>)

  /** The two section titles `formatMessage` produces for the admins and members messages. */
  datatype Labels = Labels(admins: string, members: string)

  /** The keys of `membersSections`: the admins and the members message descriptors. */
  datatype Role = AdminsRole | MembersRole

  /**
    The TypeError the source throws: reading `scheme_admin` of a profile that
    has no member record, or upper-casing the first character of an empty
    username.
   */
  datatype Fault = MissingMember(profileId: string) | EmptyUsername(profileId: string)

  /** How the profiles are grouped: by role, with the member dictionary, or alphabetically. */
  datatype Mode = ByRole(dictionary: Assoc<string, Member>) | Alphabetical

  /** The object a profile stands for. */
  function ProfileFields(p: Profile): Record {
    p.rest + map["id" := Str(p.id), "username" := Str(p.username)]
  }

  /** The object a channel member stands for. */
  function MemberFields(m: Member): Record {
    m.rest + map["user_id" := Str(m.userId), "scheme_admin" := Bool(m.schemeAdmin)]
  }

  /** `{...p, ...member}`: the member's fields laid over the profile's. */
  function Merge(p: Profile, m: Member): (r: Record)
    ensures r.Keys == ProfileFields(p).Keys + MemberFields(m).Keys
    ensures forall f :: f in MemberFields(m) ==> r[f] == MemberFields(m)[f]
    ensures forall f :: f in ProfileFields(p) && f !in MemberFields(m) ==> r[f] == ProfileFields(p)[f]
  {
    ProfileFields(p) + MemberFields(m)
  }

  /** `sectionKeyExtractor`: the upper-cased first character of the username. */
  function SectionKey(p: Profile, upper: char -> string): (r: Result<string, Fault>)
    ensures r.Success? <==> p.username != ""
    ensures r.Success? ==> r.value == upper(p.username[0])
    ensures r.Failure? ==> r.error == EmptyUsername(p.id)
  {
    if p.username == "" then Failure(EmptyUsername(p.id)) else Success(upper(p.username[0]))
  }

  /** `sectionRoleKeyExtractor`: the admins descriptor exactly for a channel admin. */
  function SectionRoleKey(cAdmin: bool): (r: Role)
    ensures r == AdminsRole <==> cAdmin
  {
    if cAdmin then AdminsRole else MembersRole
  }

  /** Some record of `members` has user id `id`. */
  predicate Enrolled(members: seq<Member>, id: string) {
    exists i :: 0 <= i < |members| && members[i].userId == id
  }

  /** The last member record in `members` with user id `id`. */
  function LastMember(members: seq<Member>, id: string): (r: Option<Member>)
    ensures r.Some? <==> Enrolled(members, id)
    ensures r.Some? ==> r.value.userId == id
    ensures r.Some? ==> exists i :: 0 <= i < |members| && members[i] == r.value &&
                                    (forall j :: i < j < |members| ==> members[j].userId != id)
  {
    if members == [] then None
    else
      var n := |members| - 1;
      if members[n].userId == id then Some(members[n])
      else
        var r := LastMember(members[..n], id);
        assert forall i :: 0 <= i < n ==> members[..n][i] == members[i];
        r
  }

  /** `members.forEach((m) => membersDictionary.set(m.user_id, m))`; a later record wins. */
  function Dictionary(members: seq<Member>): (d: Assoc<string, Member>)
    ensures forall id :: Lookup(d, id) == LastMember(members, id)
  {
    if members == [] then []
    else
      var n := |members| - 1;
      Put(Dictionary(members[..n]), members[n].userId, members[n])
  }

  /** The fault raised for profile `p`, if any. */
  function ProfileFault(p: Profile, mode: Mode): Option<Fault> {
    match mode
    case ByRole(d) => if Lookup(d, p.id).None? then Some(MissingMember(p.id)) else None
    case Alphabetical => if p.username == "" then Some(EmptyUsername(p.id)) else None
  }

  /** No profile of `profiles` raises a fault. */
  predicate Faultless(profiles: seq<Profile>, mode: Mode) {
    forall k {:trigger profiles[k]} :: 0 <= k < |profiles| ==> ProfileFault(profiles[k], mode).None?
  }

  /** The position of the first profile that raises a fault: the one the `forEach` throws at. */
  function FirstFault(profiles: seq<Profile>, mode: Mode): (r: Option<nat>)
    ensures r.Some? ==> r.value < |profiles| && ProfileFault(profiles[r.value], mode).Some?
    ensures r.Some? ==> forall k {:trigger profiles[k]} :: 0 <= k < r.value ==> ProfileFault(profiles[k], mode).None?
    ensures r.None? ==> Faultless(profiles, mode)
  {
    if profiles == [] then None
    else if ProfileFault(profiles[0], mode).Some? then Some(0)
    else
      match FirstFault(profiles[1..], mode)
      case None => None
      case Some(i) => Some(i + 1)
  }

  lemma FaultlessExtend(profiles: seq<Profile>, mode: Mode, j: nat)
    requires j < |profiles| && Faultless(profiles[..j], mode) && ProfileFault(profiles[j], mode).None?
    ensures Faultless(profiles[..j + 1], mode)
  {
    assert forall k :: 0 <= k < j + 1 ==> profiles[..j + 1][k] == if k < j then profiles[..j][k] else profiles[j];
  }

  /** The profile at `j` is the one that throws when every profile before it passes. */
  lemma FirstFaultAt(profiles: seq<Profile>, mode: Mode, j: nat)
    requires j < |profiles| && Faultless(profiles[..j], mode) && ProfileFault(profiles[j], mode).Some?
    ensures FirstFault(profiles, mode) == Some(j)
  {
  }

  /** Each profile keyed by its role and merged with its member record. */
  function RolePairs(profiles: seq<Profile>, dictionary: Assoc<string, Member>): (r: seq<(Role, Record)>)
    requires Faultless(profiles, ByRole(dictionary))
    ensures |r| == |profiles|
  {
    if profiles == [] then []
    else
      var n := |profiles| - 1;
      var member := Lookup(dictionary, profiles[n].id).value;
      RolePairs(profiles[..n], dictionary) + [(SectionRoleKey(member.schemeAdmin), Merge(profiles[n], member))]
  }

  /** Pair `k` is profile `k`'s role and its record merged with its member record. */
  lemma {:induction false} RolePairsAt(profiles: seq<Profile>, dictionary: Assoc<string, Member>, k: nat)
    requires Faultless(profiles, ByRole(dictionary)) && k < |profiles|
    ensures Lookup(dictionary, profiles[k].id).Some?
    ensures var member := Lookup(dictionary, profiles[k].id).value;
            RolePairs(profiles, dictionary)[k] == (SectionRoleKey(member.schemeAdmin), Merge(profiles[k], member))
  {
    var n := |profiles| - 1;
    assert ProfileFault(profiles[k], ByRole(dictionary)).None?;
    var prefix := profiles[..n];
    assert Faultless(prefix, ByRole(dictionary)) by {
      assert forall i :: 0 <= i < n ==> prefix[i] == profiles[i];
    }
    var member := Lookup(dictionary, profiles[n].id).value;
    assert RolePairs(profiles, dictionary)
        == RolePairs(prefix, dictionary) + [(SectionRoleKey(member.schemeAdmin), Merge(profiles[n], member))];
    if k < n {
      assert prefix[k] == profiles[k];
      RolePairsAt(prefix, dictionary, k);
    }
  }

  /** Each profile keyed by `sectionKeyExtractor`. */
  function AlphaPairs(profiles: seq<Profile>, upper: char -> string): (r: seq<(string, Record)>)
    requires Faultless(profiles, Alphabetical)
    ensures |r| == |profiles|
    ensures forall k :: 0 <= k < |profiles| ==>
              SectionKey(profiles[k], upper).Success? &&
              r[k] == (SectionKey(profiles[k], upper).value, ProfileFields(profiles[k]))
  {
    if profiles == [] then []
    else
      var n := |profiles| - 1;
      var r := AlphaPairs(profiles[..n], upper) + [(SectionKey(profiles[n], upper).value, ProfileFields(profiles[n]))];
      assert forall k :: 0 <= k < n ==> profiles[..n][k] == profiles[k];
      r
  }

  /** The `sections` map once it is filled, when no profile raises a fault. */
  function SectionEntries(profiles: seq<Profile>, mode: Mode, labels: Labels, upper: char -> string)
    : Assoc<string, Option<seq<Record>>>
    requires Faultless(profiles, mode)
  {
    match mode
    case ByRole(d) =>
      var groups := Group(RolePairs(profiles, d));
      Put(Put([], labels.admins, Lookup(groups, AdminsRole)), labels.members, Lookup(groups, MembersRole))
    case Alphabetical =>
      Defined(Group(AlphaPairs(profiles, upper)))
  }

  /** The `for..of` over the `sections` entries from position `index` on; undefined groups are skipped. */
  function EmitFrom(entries: Assoc<string, Option<seq<Record>>>, index: nat): seq<Section> {
    if entries == [] then []
    else
      (if entries[0].1.Some? then [Section(index == 0, entries[0].0, entries[0].1.value)] else [])
      + EmitFrom(entries[1..], index + 1)
  }

  /** What `createProfilesSections` returns or throws. */
  function ProfilesSections(profiles: seq<Profile>, members: seq<Member>, labels: Labels, upper: char -> string)
    : Result<seq<Section>, Fault>
  {
    if |profiles| == 0 then Success([])
    else
      var mode := if |members| > 0 then ByRole(Dictionary(members)) else Alphabetical;
      match FirstFault(profiles, mode)
      case Some(i) => Failure(ProfileFault(profiles[i], mode).value)
      case None => Success(EmitFrom(SectionEntries(profiles, mode, labels, upper), 0))
  }

  /** `members.forEach((m) => membersDictionary.set(m.user_id, m))`. */
  method FillDictionary(members: seq<Member>) returns (membersDictionary: Assoc<string, Member>)
    ensures membersDictionary == Dictionary(members)
  {
    membersDictionary := [];
    for i := 0 to |members|
      invariant membersDictionary == Dictionary(members[..i])
    {
      assert members[..i + 1][..i] == members[..i];
      membersDictionary := Put(membersDictionary, members[i].userId, members[i]);
    }
    assert members[..|members|] == members;
  }

  /** The `profiles.forEach` that fills `membersSections`; it throws at the first profile without a member. */
  method FillRoleSections(profiles: seq<Profile>, membersDictionary: Assoc<string, Member>)
    returns (r: Result<Assoc<Role, seq<Record>>, Fault>)
    ensures r == match FirstFault(profiles, ByRole(membersDictionary))
                 case Some(i) => Failure(MissingMember(profiles[i].id))
                 case None => Success(Group(RolePairs(profiles, membersDictionary)))
  {
    var membersSections: Assoc<Role, seq<Record>> := [];
    assert profiles[..0] == [];
    for j := 0 to |profiles|
      invariant Faultless(profiles[..j], ByRole(membersDictionary))
      invariant membersSections == Group(RolePairs(profiles[..j], membersDictionary))
    {
      var p := profiles[j];
      var member := Lookup(membersDictionary, p.id);
      if member.None? {
        FirstFaultAt(profiles, ByRole(membersDictionary), j);
        return Failure(MissingMember(p.id));
      }
      var sectionKey := SectionRoleKey(member.value.schemeAdmin);
      var sectionValue := Lookup(membersSections, sectionKey).GetOr([]);
      assert profiles[..j + 1][..j] == profiles[..j];
      FaultlessExtend(profiles, ByRole(membersDictionary), j);
      ghost var pairs := RolePairs(profiles[..j], membersDictionary);
      assert RolePairs(profiles[..j + 1], membersDictionary) == pairs + [(sectionKey, Merge(p, member.value))];
      GroupSnoc(pairs, sectionKey, Merge(p, member.value));
      membersSections := Put(membersSections, sectionKey, sectionValue + [Merge(p, member.value)]);
    }
    assert profiles[..|profiles|] == profiles;
    return Success(membersSections);
  }

  /** The `profiles.forEach` that fills `sections` by first letter; it throws at the first empty username. */
  method FillAlphabeticalSections(profiles: seq<Profile>, upper: char -> string)
    returns (r: Result<Assoc<string, Option<seq<Record>>>, Fault>)
    ensures r == match FirstFault(profiles, Alphabetical)
                 case Some(i) => Failure(EmptyUsername(profiles[i].id))
                 case None => Success(Defined(Group(AlphaPairs(profiles, upper))))
  {
    var sections: Assoc<string, Option<seq<Record>>> := [];
    assert profiles[..0] == [];
    for j := 0 to |profiles|
      invariant Faultless(profiles[..j], Alphabetical)
      invariant sections == Defined(Group(AlphaPairs(profiles[..j], upper)))
    {
      var p := profiles[j];
      var sectionKey := SectionKey(p, upper);
      if sectionKey.Failure? {
        FirstFaultAt(profiles, Alphabetical, j);
        return Failure(sectionKey.error);
      }
      var existing := Lookup(sections, sectionKey.value);
      var sectionValue := if existing.Some? && existing.value.Some? then existing.value.value else [];
      ghost var groups := Group(AlphaPairs(profiles[..j], upper));
      DefinedLookup(groups, sectionKey.value);
      assert sectionValue == Lookup(groups, sectionKey.value).GetOr([]);
      DefinedPut(groups, sectionKey.value, sectionValue + [ProfileFields(p)]);
      assert profiles[..j + 1][..j] == profiles[..j];
      FaultlessExtend(profiles, Alphabetical, j);
      ghost var pairs := AlphaPairs(profiles[..j], upper);
      assert AlphaPairs(profiles[..j + 1], upper) == pairs + [(sectionKey.value, ProfileFields(p))];
      GroupSnoc(pairs, sectionKey.value, ProfileFields(p));
      sections := Put(sections, sectionKey.value, Some(sectionValue + [ProfileFields(p)]));
    }
    assert profiles[..|profiles|] == profiles;
    return Success(sections);
  }

  /** The `for..of` over `sections` that pushes a section for every defined group. */
  method EmitSections(sections: Assoc<string, Option<seq<Record>>>) returns (results: seq<Section>)
    ensures results == EmitFrom(sections, 0)
  {
    results := [];
    var index := 0;
    while index < |sections|
      invariant 0 <= index <= |sections|
      invariant results + EmitFrom(sections[index..], index) == EmitFrom(sections, 0)
    {
      var (k, v) := sections[index];
      if v.Some? {
        results := results + [Section(index == 0, k, v.value)];
      }
      index := index + 1;
    }
  }

  /** `createProfilesSections`. */
  method CreateProfilesSections(profiles: seq<Profile>, members: seq<Member>, labels: Labels, upper: char -> string)
    returns (r: Result<seq<Section>, Fault>)
    ensures r == ProfilesSections(profiles, members, labels, upper)
  {
    if |profiles| == 0 {
      return Success([]);
    }
    var sections: Assoc<string, Option<seq<Record>>> := [];
    if |members| > 0 {
      var membersDictionary := FillDictionary(members);
      var membersSections := FillRoleSections(profiles, membersDictionary);
      if membersSections.Failure? {
        return Failure(membersSections.error);
      }
      sections := Put(sections, labels.admins, Lookup(membersSections.value, AdminsRole));
      sections := Put(sections, labels.members, Lookup(membersSections.value, MembersRole));
    } else {
      var filled := FillAlphabeticalSections(profiles, upper);
      if filled.Failure? {
        return Failure(filled.error);
      }
      sections := filled.value;
    }
    var results := EmitSections(sections);
    return Success(results);
  }
}
