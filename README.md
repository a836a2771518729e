# User list sectioning

A Dafny model of the logic inside the user list component of the Mattermost
mobile app (`app/components/user_list/index.tsx`): `createProfilesSections`,
which turns a flat list of user profiles into the sections of a section list,
and the small pure decisions around it (which data the list shows, when the
no-results view appears, and the props computed for each row).

`createProfilesSections` works in one of two modes:

- **by role**, when a non-empty list of channel members is given: every member
  record is put into a dictionary keyed by user id (a later record wins); each
  profile is merged with its member record (`{...p, ...member}`) and appended
  to the admins or members group by `scheme_admin`; the admins title and then
  the members title are set in the sections map, each with its group or
  `undefined`;
- **alphabetically**, otherwise: each profile is appended to the group keyed by
  the upper-cased first character of its username.

The sections map is then walked in insertion order with a counter `index`; each
defined group becomes `{first: index === 0, id, data}`.

## Structure

- `wrappers.dfy` — `Option` (for `undefined`) and `Result` (for a thrown error).
- `ordered_map.dfy` — module `OrderedMap`: a JavaScript `Map` as an
  insertion-ordered association list (`Lookup` is `get`, `Put` is `set`).
- `grouping.dfy` — module `Grouping`: the group-by fold `Group` the `forEach`
  loops perform, and two reference definitions without maps: `Select` (values
  with one key, in input order) and `FirstOccurrences` (distinct keys in
  encounter order).
- `profile_sections.dfy` — module `ProfileSections`: profiles, members,
  records, sections; the recursive specification `ProfilesSections`; and
  `CreateProfilesSections`, an imperative method whose loops mirror the
  source's `forEach` and `for..of` loops, proved equal to the specification.
- `section_theorems.dfy` — module `SectionTheorems`: what the specification
  computes, stated without maps: layout per mode, the `first` flag, faults,
  no profile lost or duplicated.
- `user_list_view.dfy` — module `UserListView`: the `data` selection,
  `renderNoResults` and `renderItem`.

Modelling choices:

- Objects are `map<string, Value>`; `Merge` is map union with the member's
  fields winning, which is what the object spread does.
- `intl.formatMessage` is abstracted as two given titles (`Labels`), and
  `toUpperCase` on the first character as a given function
  `upper: char -> string`.
- An absent `members` and an empty one behave the same in the source (both
  make `members?.length` falsy); both are the empty sequence here. An absent
  search `term` and an empty one are both `""`.
- The two places where the source throws a TypeError are modelled as
  `Failure(Fault)`: reading `scheme_admin` of a profile that has no member
  record (`MissingMember`), and upper-casing the first character of an empty
  username (`EmptyUsername`). The fault names the first such profile in input
  order, because the `forEach` stops there.
- The two titles are not assumed distinct: the model keeps `Map.set`
  semantics, so equal titles make the second `set` overwrite the first
  (`RoleSameLabels`).

`first` comes from a counter over the map's entries that also counts an entry
whose group is `undefined` (app/components/user_list/index.tsx:99-108). So in
role mode without admins the members section has `first = false` and no
section is marked first (`RoleLayout`).

## Model

| member | source | states |
|---|---|---|
| `OrderedMap.Put` | app/components/user_list/index.tsx:84 | after `set(k, v)`, `get(k)` gives `v` and every other key gives what it gave before |
| `OrderedMap.Lookup` | app/components/user_list/index.tsx:78-80 | `get(k)` finds a value exactly when `k` is a key of the map; otherwise it is `undefined` |
| `OrderedMap.PutKeys` | app/components/user_list/index.tsx:86-87 | `set` on a present key keeps its position, on a new key appends it; distinct keys stay distinct |
| `Grouping.AppendLookup` | app/components/user_list/index.tsx:92-94 | `set(k, [...(get(k) \|\| []), x])` gives `k` its old group extended by `x` (or `[x]` when absent) and leaves every other key's group unchanged |
| `ProfileSections.AlphaPairs` | app/components/user_list/index.tsx:90-93 | each profile is paired with its `sectionKeyExtractor` key, the upper-cased first character of its username, in input order |
| `ProfileSections.RolePairsAt` | app/components/user_list/index.tsx:77-83 | each profile is paired with the role of its member record and the profile merged with that record; a record exists for every profile that does not throw |
| `ProfileSections.Merge` | app/components/user_list/index.tsx:82-83 | the merged record has the fields of both objects; on a shared field name the member's value wins |
| `ProfileSections.SectionKey` | app/components/user_list/index.tsx:54-57 | the key is `upper` of the username's first character; an empty username throws, naming the profile |
| `ProfileSections.SectionRoleKey` | app/components/user_list/index.tsx:59-62 | the admins descriptor is chosen exactly when `scheme_admin` holds |
| `ProfileSections.LastMember` | app/components/user_list/index.tsx:76 | a record is found exactly when some member has the id, and it is the last member with that id |
| `ProfileSections.Dictionary` | app/components/user_list/index.tsx:73-76 | looking an id up in the filled dictionary gives the last member record with that id (duplicates: last wins) |
| `ProfileSections.FirstFault` | app/components/user_list/index.tsx:77-79 | the position found is the first profile that throws; when none is found, no profile throws |
| `ProfileSections.FillDictionary` | app/components/user_list/index.tsx:76 | the loop leaves the dictionary `Dictionary(members)` |
| `ProfileSections.FillRoleSections` | app/components/user_list/index.tsx:77-85 | the loop throws for the first profile without a member record, otherwise leaves the group-by of the (role, merged record) pairs |
| `ProfileSections.FillAlphabeticalSections` | app/components/user_list/index.tsx:90-95 | the loop throws for the first empty username, otherwise leaves the group-by of the (first-letter key, profile) pairs |
| `ProfileSections.EmitSections` | app/components/user_list/index.tsx:98-110 | the `for..of` pushes one section per defined entry, with `first` from the entry counter |
| `ProfileSections.CreateProfilesSections` | app/components/user_list/index.tsx:64-111 | the method returns or throws exactly what the specification `ProfilesSections` gives |
| `Grouping.GroupLookup` | app/components/user_list/index.tsx:80-84 | after the `forEach` of `Append` steps (`Group`), the group stored under a key holds exactly the values with that key in input order, and is absent when there are none |
| `Grouping.GroupKeys` | app/components/user_list/index.tsx:91-94 | the keys of the grouped map are the input keys in first-occurrence order |
| `Grouping.FirstOccurrencesMembers` | app/components/user_list/index.tsx:91-94 | the first occurrences are distinct and are exactly the elements of the input |
| `Grouping.FirstOccurrencesOrder` | app/components/user_list/index.tsx:100 | a key listed earlier occurs in the input before every occurrence of a key listed later |
| `Grouping.GroupTotal` | app/components/user_list/index.tsx:90-95 | the group sizes add up to the number of inputs: nothing lost, nothing duplicated |
| `SectionTheorems.EmitFirst` | app/components/user_list/index.tsx:98-109 | a section is `first` exactly when it comes from the defined entry at map position 0 |
| `SectionTheorems.EmitDefined` | app/components/user_list/index.tsx:100-107 | with every group defined, entry i becomes section i with its key and group, and the rows add up |
| `SectionTheorems.EmptyProfiles` | app/components/user_list/index.tsx:65-67 | no profiles give no sections, whatever the members |
| `SectionTheorems.FirstFlag` | app/components/user_list/index.tsx:103 | at most one section is `first`, and only the one at position 0 |
| `SectionTheorems.AlphabeticalLayout` | app/components/user_list/index.tsx:88-109 | one non-empty section per distinct key, in first-occurrence order, holding exactly that key's profiles in input order; only section 0 is `first`; the rows add up to the profiles |
| `SectionTheorems.AlphabeticalFault` | app/components/user_list/index.tsx:90-91 | alphabetical mode throws exactly when some username is empty, naming the first such profile |
| `SectionTheorems.RoleSelect` | app/components/user_list/index.tsx:77-85 | the group built for a role holds the merged records of the profiles whose last member record has that role, in input order |
| `SectionTheorems.RoleRecordsCount` | app/components/user_list/index.tsx:77-85 | every profile is in exactly one of the two role groups |
| `SectionTheorems.RoleSections` | app/components/user_list/index.tsx:86-87 | the two `get` calls give the admins group and the members group, or `undefined` when a group is empty |
| `SectionTheorems.RoleLayout` | app/components/user_list/index.tsx:71-109 | with distinct titles: admins section (first) before members section (never first), empty groups omitted, at most two sections, rows add up to the profiles |
| `SectionTheorems.RoleSameLabels` | app/components/user_list/index.tsx:86-87 | with equal titles the admins are overwritten and only the members section remains, marked first |
| `SectionTheorems.RoleFault` | app/components/user_list/index.tsx:78-79 | role mode throws exactly when some profile has no member record, naming the first such profile |
| `UserListView.DisplayedData` | app/components/user_list/index.tsx:191-201 | a search term shows the profiles unchanged in the flat list; otherwise the sections (or the fault); no profiles give an empty list either way |
| `UserListView.ShowsNoResults` | app/components/user_list/index.tsx:263-266 | the no-results view is rendered exactly when `showNoResults` is on and there is a search term |
| `UserListView.NoResultsOnlyWhenSearching` | app/components/user_list/index.tsx:263-266 | whenever the no-results view is rendered, the list is the flat list of the profiles |
| `UserListView.RenderItem` | app/components/user_list/index.tsx:220-238 | `selected` iff the id is a selected key; `disabled` iff the selection is full; `selectable` iff manage mode or not disabled; `highlight` iff row 0 of a `first` section |
| `UserListView.HighlightOnlyTopRow` | app/components/user_list/index.tsx:230 | in a section list only row 0 of section 0 can be highlighted |

## Left out

- React rendering: the `FlatList` and `SectionList` props, `renderSectionHeader`, `renderLoading`, the styles and the constants `INITIAL_BATCH_TO_RENDER` and `SCROLL_EVENT_THROTTLE` describe views and carry no behaviour to state.
- `keyExtractor` returns `item.id` and is not modelled.
- `openUserProfile` is asynchronous I/O (`storeProfile`) followed by navigation and keyboard dismissal; it is not modelled.
- Hooks and context (`useIntl`, `useTheme`, `useServerUrl`, `useKeyboardHeight`, memoisation with `useMemo` and `useCallback`): their results are plain parameters.
- Localisation and Unicode case mapping: the titles are parameters and `toUpperCase` is an uninterpreted `upper`; `username[0]` is a UTF-16 code unit in the source and a Dafny `char` here.
- `ProfileSections.Member`: `scheme_admin` is a boolean; an absent `scheme_admin`, which the source treats as falsy, is represented as `false`.
- `UserListView.RenderItem`: the props that are passed through unchanged (`key`, `id`, `manageMode`, callbacks, `testID`, display settings, `user`) are not modelled.
- Object field order after a spread is not modelled: records are maps.
- `app/components/touchable_emoji/skinned_emoji.tsx`: a touch-feedback wrapper whose only decision depends on `isValidNamedEmoji` and the `skinCodes` table, neither of which is part of this model.
