/**
  The pure decisions of the `UserList` component around the sections: which
  data the list is given, when the no-results view is rendered, and the
  props `renderItem` computes for each row.
 */
module UserListView {
  import opened Wrappers
  import opened ProfileSections
  import opened SectionTheorems

  /** The list the component renders: a flat list of profiles or a section list. */
  datatype ListData = Flat(items: seq<Profile>) | Sectioned(sections: seq<Section>)

  /** The props `renderItem` passes to a row that depend on the row and the selection. */
  datatype RowProps = RowProps(
    highlight: bool,
    isChannelAdmin: bool,
    isMyUser: bool,
    selectable: bool,
    disabled: bool,
    selected: bool)

  /** JavaScript truthiness of a field value. */
  function Truthy(v: Value): bool {
    match v
    case Str(s) => s != ""
    case Bool(b) => b
    case Num(n) => n != 0
    case Null => false
  }

  /**
    The `data` memo and the choice between the flat list and the section
    list. A search `term` of "" stands for an absent or empty term.
   */
  function DisplayedData(profiles: seq<Profile>, members: seq<Member>, labels: Labels, upper: char -> string,
                         loading: bool, term: string): (r: Result<ListData, Fault>)
    ensures term != "" ==> r == Success(Flat(profiles))
    ensures term == "" ==> r == match ProfilesSections(profiles, members, labels, upper)
                                case Success(sections) => Success(Sectioned(sections))
                                case Failure(e) => Failure(e)
    ensures |profiles| == 0 ==> r == Success(if term != "" then Flat([]) else Sectioned([]))
  {
    if |profiles| == 0 && !loading then
      Success(if term != "" then Flat([]) else Sectioned([]))
    else if term != "" then
      Success(Flat(profiles))
    else
      match ProfilesSections(profiles, members, labels, upper)
      case Success(sections) => Success(Sectioned(sections))
      case Failure(e) => Failure(e)
  }

  /**
    `renderNoResults`: whether the no-results view is rendered as the list's
    empty component; it renders nothing when `showNoResults` is off or there
    is no search term.
   */
  function ShowsNoResults(showNoResults: bool, term: string): (r: bool)
    ensures !showNoResults || term == "" ==> !r
    ensures showNoResults && term != "" ==> r
  {
    showNoResults && term != ""
  }

  /** The no-results view needs both flags, and it only ever sits under the flat list of search results. */
  lemma NoResultsOnlyWhenSearching(profiles: seq<Profile>, members: seq<Member>, labels: Labels,
                                   upper: char -> string, loading: bool, showNoResults: bool, term: string)
    ensures ShowsNoResults(showNoResults, term) ==>
              DisplayedData(profiles, members, labels, upper, loading, term) == Success(Flat(profiles))
  {
  }

  /**
    `renderItem` for row `index` of `section` (`None` in the flat list), with
    `selectedIds` the selected profiles by id and `maxUsersInGm` the most
    users a group message may hold.
   */
  function RenderItem(item: Record, index: nat, section: Option<Section>, selectedIds: map<string, Profile>,
                      maxUsersInGm: nat, manageMode: bool, currentUserId: string): (r: RowProps)
    requires "id" in item && item["id"].Str?
    ensures r.selected <==> item["id"].s in selectedIds
    ensures r.disabled <==> |selectedIds| >= maxUsersInGm
    ensures r.selectable <==> manageMode || !r.disabled
    ensures r.highlight <==> section.Some? && section.value.first && index == 0
    ensures r.isChannelAdmin <==> "scheme_admin" in item && Truthy(item["scheme_admin"])
    ensures r.isMyUser <==> currentUserId == item["id"].s
  {
    var id := item["id"].s;
    var selected := id in selectedIds;
    var canAdd := |selectedIds| < maxUsersInGm;
    var isChAdmin := "scheme_admin" in item && Truthy(item["scheme_admin"]);
    RowProps(
      highlight := section.Some? && section.value.first && index == 0,
      isChannelAdmin := isChAdmin,
      isMyUser := currentUserId == id,
      selectable := manageMode || canAdd,
      disabled := !canAdd,
      selected := selected)
  }

  /** Of all rows of a section list, only the top row of the first section can be highlighted. */
  lemma HighlightOnlyTopRow(profiles: seq<Profile>, members: seq<Member>, labels: Labels, upper: char -> string,
                            si: nat, index: nat, item: Record, selectedIds: map<string, Profile>,
                            maxUsersInGm: nat, manageMode: bool, currentUserId: string)
    requires ProfilesSections(profiles, members, labels, upper).Success?
    requires si < |ProfilesSections(profiles, members, labels, upper).value|
    requires "id" in item && item["id"].Str?
    ensures var sections := ProfilesSections(profiles, members, labels, upper).value;
            var props := RenderItem(item, index, Some(sections[si]), selectedIds, maxUsersInGm, manageMode, currentUserId);
            props.highlight ==> si == 0 && index == 0
  {
    FirstFlag(profiles, members, labels, upper);
  }
}
