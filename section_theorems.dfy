/**
  What `createProfilesSections` computes, stated without the maps it fills:
  the layout of the sections in each grouping mode, the `first` flag, the
  faults, and that no profile is lost or duplicated.
 */
module SectionTheorems {
  import opened Wrappers
  import opened OrderedMap
  import opened Grouping
  import opened ProfileSections

  /** Number of rows over all sections. */
  function TotalRows(sections: seq<Section>): nat {
    if sections == [] then 0 else |sections[0].data| + TotalRows(sections[1..])
  }

  /**
    The merged records, in input order, of the profiles whose last member
    record has `scheme_admin == admin`.
   */
  function RoleRecords(profiles: seq<Profile>, members: seq<Member>, admin: bool): seq<Record>
    requires forall k :: 0 <= k < |profiles| ==> Enrolled(members, profiles[k].id)
  {
    if profiles == [] then []
    else
      var n := |profiles| - 1;
      var member := LastMember(members, profiles[n].id).value;
      RoleRecords(profiles[..n], members, admin) + (if member.schemeAdmin == admin then [Merge(profiles[n], member)] else [])
  }

  /** Only the entry at map position 0 can yield a section marked `first`. */
  lemma {:induction false} EmitFirst(entries: Assoc<string, Option<seq<Record>>>, index: nat)
    ensures forall i :: 0 <= i < |EmitFrom(entries, index)| ==>
              (EmitFrom(entries, index)[i].first <==> i == 0 && index == 0 && entries[0].1.Some?)
  {
    if entries != [] {
      EmitFirst(entries[1..], index + 1);
    }
  }

  /** With every group defined, each map entry becomes one section, in map order. */
  lemma {:induction false} EmitDefined(m: Assoc<string, seq<Record>>, index: nat)
    ensures |EmitFrom(Defined(m), index)| == |m|
    ensures forall i :: 0 <= i < |m| ==> EmitFrom(Defined(m), index)[i] == Section(index + i == 0, m[i].0, m[i].1)
    ensures TotalRows(EmitFrom(Defined(m), index)) == TotalSize(m)
  {
    if m != [] {
      EmitDefined(m[1..], index + 1);
      assert Defined(m)[1..] == Defined(m[1..]);
      var r := EmitFrom(Defined(m), index);
      assert r[1..] == EmitFrom(Defined(m[1..]), index + 1);
    }
  }

  /** An empty profile list yields no sections, whatever the members. */
  lemma EmptyProfiles(members: seq<Member>, labels: Labels, upper: char -> string)
    ensures ProfilesSections([], members, labels, upper) == Success([])
  {
  }

  /** At most one section is marked `first`, and only the one at position 0. */
  lemma FirstFlag(profiles: seq<Profile>, members: seq<Member>, labels: Labels, upper: char -> string)
    ensures var r := ProfilesSections(profiles, members, labels, upper);
            r.Success? ==> forall i :: 0 <= i < |r.value| && r.value[i].first ==> i == 0
  {
    if |profiles| > 0 {
      var mode := if |members| > 0 then ByRole(Dictionary(members)) else Alphabetical;
      if FirstFault(profiles, mode).None? {
        EmitFirst(SectionEntries(profiles, mode, labels, upper), 0);
      }
    }
  }

  /**
    Alphabetical mode: one section per distinct key, in the order the keys
    first occur; each section holds exactly the profiles with its key, in
    input order; only the first section is marked `first`.
   */
  lemma AlphabeticalLayout(profiles: seq<Profile>, labels: Labels, upper: char -> string)
    requires |profiles| > 0
    requires forall k :: 0 <= k < |profiles| ==> profiles[k].username != ""
    ensures Faultless(profiles, Alphabetical)
    ensures var r := ProfilesSections(profiles, [], labels, upper);
            var pairs := AlphaPairs(profiles, upper);
            var keys := FirstOccurrences(Keys(pairs));
            && r.Success?
            && |r.value| == |keys|
            && Distinct(keys)
            && (forall i :: 0 <= i < |keys| ==> r.value[i] == Section(i == 0, keys[i], Select(pairs, keys[i])))
            && (forall i :: 0 <= i < |keys| ==> r.value[i].data != [])
            && TotalRows(r.value) == |profiles|
  {
    assert Faultless(profiles, Alphabetical);
    var pairs := AlphaPairs(profiles, upper);
    var keys := FirstOccurrences(Keys(pairs));
    var g := Group(pairs);
    EmitDefined(g, 0);
    GroupKeys(pairs);
    GroupTotal(pairs);
    FirstOccurrencesMembers(Keys(pairs));
    forall i | 0 <= i < |keys|
      ensures g[i] == (keys[i], Select(pairs, keys[i])) && Select(pairs, keys[i]) != []
    {
      LookupAt(g, i);
      GroupLookup(pairs, keys[i]);
      SelectEmpty(pairs, keys[i]);
    }
  }

  /** Every profile lands in exactly one of the two role groups. */
  lemma {:induction false} RoleRecordsCount(profiles: seq<Profile>, members: seq<Member>)
    requires forall k :: 0 <= k < |profiles| ==> Enrolled(members, profiles[k].id)
    ensures |RoleRecords(profiles, members, true)| + |RoleRecords(profiles, members, false)| == |profiles|
  {
    if profiles != [] {
      RoleRecordsCount(profiles[..|profiles| - 1], members);
    }
  }

  /** The role group the `forEach` builds for `admin` is `RoleRecords(profiles, members, admin)`. */
  lemma {:induction false} RoleSelect(profiles: seq<Profile>, members: seq<Member>, admin: bool)
    requires forall k :: 0 <= k < |profiles| ==> Enrolled(members, profiles[k].id)
    ensures Faultless(profiles, ByRole(Dictionary(members)))
    ensures Select(RolePairs(profiles, Dictionary(members)), SectionRoleKey(admin)) == RoleRecords(profiles, members, admin)
  {
    var d := Dictionary(members);
    assert Faultless(profiles, ByRole(d)) by {
      forall k | 0 <= k < |profiles|
        ensures ProfileFault(profiles[k], ByRole(d)).None?
      {
        assert Lookup(d, profiles[k].id) == LastMember(members, profiles[k].id);
      }
    }
    if profiles != [] {
      var n := |profiles| - 1;
      RoleSelect(profiles[..n], members, admin);
      var pairs := RolePairs(profiles, d);
      assert pairs[..n] == RolePairs(profiles[..n], d);
      assert Lookup(d, profiles[n].id) == LastMember(members, profiles[n].id);
    }
  }

  /**
    Role mode with distinct titles: the admins section (marked `first`) comes
    before the members section (never marked `first`, even when the admins
    section is left out); an empty group yields no section; every profile is
    in exactly one of them.
   */
  lemma RoleLayout(profiles: seq<Profile>, members: seq<Member>, labels: Labels, upper: char -> string)
    requires |profiles| > 0 && |members| > 0
    requires forall k :: 0 <= k < |profiles| ==> Enrolled(members, profiles[k].id)
    requires labels.admins != labels.members
    ensures var admins := RoleRecords(profiles, members, true);
            var rest := RoleRecords(profiles, members, false);
            && ProfilesSections(profiles, members, labels, upper) == Success(
                 (if admins == [] then [] else [Section(true, labels.admins, admins)]) +
                 (if rest == [] then [] else [Section(false, labels.members, rest)]))
            && |admins| + |rest| == |profiles|
  {
    RoleSections(profiles, members, labels);
    RoleRecordsCount(profiles, members);
    var d := Dictionary(members);
    var groups := Group(RolePairs(profiles, d));
    var admins, rest := Lookup(groups, AdminsRole), Lookup(groups, MembersRole);
    var entries := SectionEntries(profiles, ByRole(d), labels, upper);
    var first: Assoc<string, Option<seq<Record>>> := [(labels.admins, admins)];
    assert Put([], labels.admins, admins) == first;
    assert first[1..] == [];
    assert Put(first, labels.members, rest) == [first[0]] + Put([], labels.members, rest);
    assert entries == [(labels.admins, admins), (labels.members, rest)];
    assert entries[1..] == [(labels.members, rest)];
    assert entries[1..][1..] == [];
    assert EmitFrom(entries[1..], 1) == if rest.Some? then [Section(false, labels.members, rest.value)] else [];
    assert EmitFrom(entries, 0) ==
      (if admins.Some? then [Section(true, labels.admins, admins.value)] else []) +
      (if rest.Some? then [Section(false, labels.members, rest.value)] else []);
  }

  /**
    Role mode with equal titles: the second `set` on the sections map
    overwrites the first, so the admins are dropped and the members section,
    now at position 0, is marked `first`.
   */
  lemma RoleSameLabels(profiles: seq<Profile>, members: seq<Member>, labels: Labels, upper: char -> string)
    requires |profiles| > 0 && |members| > 0
    requires forall k :: 0 <= k < |profiles| ==> Enrolled(members, profiles[k].id)
    requires labels.admins == labels.members
    ensures var rest := RoleRecords(profiles, members, false);
            ProfilesSections(profiles, members, labels, upper) ==
              Success(if rest == [] then [] else [Section(true, labels.members, rest)])
  {
    RoleSections(profiles, members, labels);
    var d := Dictionary(members);
    var groups := Group(RolePairs(profiles, d));
    var rest := Lookup(groups, MembersRole);
    var entries := SectionEntries(profiles, ByRole(d), labels, upper);
    assert entries == [(labels.members, rest)];
    assert EmitFrom(entries, 0) == if rest.Some? then [Section(true, labels.members, rest.value)] else [];
  }

  /** The two lookups of `membersSections`, in terms of `RoleRecords`. */
  lemma RoleSections(profiles: seq<Profile>, members: seq<Member>, labels: Labels)
    requires forall k :: 0 <= k < |profiles| ==> Enrolled(members, profiles[k].id)
    ensures Faultless(profiles, ByRole(Dictionary(members)))
    ensures FirstFault(profiles, ByRole(Dictionary(members))) == None
    ensures var groups := Group(RolePairs(profiles, Dictionary(members)));
            var admins := RoleRecords(profiles, members, true);
            var rest := RoleRecords(profiles, members, false);
            && Lookup(groups, AdminsRole) == (if admins == [] then None else Some(admins))
            && Lookup(groups, MembersRole) == (if rest == [] then None else Some(rest))
  {
    RoleSelect(profiles, members, true);
    RoleSelect(profiles, members, false);
    var pairs := RolePairs(profiles, Dictionary(members));
    GroupLookup(pairs, AdminsRole);
    GroupLookup(pairs, MembersRole);
  }

  /**
    Role mode throws exactly when some profile has no member record, and the
    error names the first such profile.
   */
  lemma RoleFault(profiles: seq<Profile>, members: seq<Member>, labels: Labels, upper: char -> string)
    requires |profiles| > 0 && |members| > 0
    ensures var r := ProfilesSections(profiles, members, labels, upper);
            r.Failure? <==> exists k :: 0 <= k < |profiles| && !Enrolled(members, profiles[k].id)
    ensures var r := ProfilesSections(profiles, members, labels, upper);
            r.Failure? ==> exists k :: && 0 <= k < |profiles|
                                       && !Enrolled(members, profiles[k].id)
                                       && r.error == MissingMember(profiles[k].id)
                                       && forall j :: 0 <= j < k ==> Enrolled(members, profiles[j].id)
  {
    var d := Dictionary(members);
    forall k | 0 <= k < |profiles|
      ensures ProfileFault(profiles[k], ByRole(d)).None? <==> Enrolled(members, profiles[k].id)
    {
      assert Lookup(d, profiles[k].id) == LastMember(members, profiles[k].id);
    }
    var first := FirstFault(profiles, ByRole(d));
    if first.Some? {
      assert !Enrolled(members, profiles[first.value].id);
    }
  }

  /**
    Alphabetical mode throws exactly when some username is empty, and the
    error names the first such profile.
   */
  lemma AlphabeticalFault(profiles: seq<Profile>, labels: Labels, upper: char -> string)
    requires |profiles| > 0
    ensures var r := ProfilesSections(profiles, [], labels, upper);
            r.Failure? <==> exists k :: 0 <= k < |profiles| && profiles[k].username == ""
    ensures var r := ProfilesSections(profiles, [], labels, upper);
            r.Failure? ==> exists k :: && 0 <= k < |profiles|
                                       && profiles[k].username == ""
                                       && r.error == EmptyUsername(profiles[k].id)
                                       && forall j :: 0 <= j < k ==> profiles[j].username != ""
  {
    var first := FirstFault(profiles, Alphabetical);
    if first.Some? {
      assert profiles[first.value].username == "";
    }
  }
}
