/** The side panel's state object and the operations that change it: the note, the ordered
    group list, the add-link dialog (open or closed, with a pending target group), the group
    selector's options as last built, and a ghost copy of the two storage keys. */
module SidePanel {
  import opened Options
  import opened Groups
  import JsText
  import View

  /** The style tag of a status notification. */
  datatype NoticeKind = Success | Error | Info

  /** A status notification: its text and its kind. */
  datatype Notice = Notice(message: string, kind: NoticeKind)

  /** The two persistent keys, `groups` (JSON of the list) and `note`; `None` for a key that
      is absent or holds JSON `null`. */
  datatype Storage = Storage(groups: Option<seq<Group>>, note: Option<string>)

  /** The dialog's fields when opened from the "add current page" button. */
  const CurrentPageTitle := "Example URL"
  const CurrentPageUrl := "https://example.com"

  /** `state.selectedGroupId || elements.selectGroup.value`: the pending target when it is
      set and non-empty, otherwise the selector's value. */
  function TargetGroupId(selected: Option<string>, selectValue: string): (r: string)
    ensures selected.Some? && selected.value != [] ==> r == selected.value
    ensures selected.None? || selected.value == [] ==> r == selectValue
    ensures r == [] <==> (selected.None? || selected.value == []) && selectValue == []
  {
    if selected.Some? && selected.value != [] then selected.value else selectValue
  }

  class Panel {
    var groups: seq<Group>
    var note: string
    /** The group an opened dialog adds to; `None` is JavaScript's `null`. */
    var selectedGroupId: Option<string>
    /** Whether the add-link dialog is shown. */
    var modalOpen: bool
    /** The group selector's options as `updateGroupSelect` last built them. */
    var selectOptions: seq<View.SelectOption>
    /** What persistent storage holds. */
    ghost var storage: Storage

    /** The dialog's transitions leave three states: closed with no pending target, open
        from the current page, and open for a group. So a closed dialog has no target. */
    predicate Valid()
      reads this
    {
      !modalOpen ==> selectedGroupId == None
    }

    /** Loading: `JSON.parse(localStorage.getItem('groups')) || []` and
        `localStorage.getItem('note') || ''`, then the first render. */
    constructor (stored: Storage)
      ensures groups == stored.groups.GetOr([]) && note == stored.note.GetOr("")
      ensures selectedGroupId == None && !modalOpen
      ensures selectOptions == View.SelectOptions(groups)
      ensures storage == stored
      ensures Valid()
    {
      groups := stored.groups.GetOr([]);
      note := stored.note.GetOr("");
      selectedGroupId := None;
      modalOpen := false;
      selectOptions := View.SelectOptions(stored.groups.GetOr([]));
      storage := stored;
    }

    /** `saveNote`: the note becomes the field's text and is stored; always succeeds. */
    method SaveNote(noteField: string) returns (notice: Notice)
      requires Valid()
      modifies this
      ensures Valid()
      ensures note == noteField && storage == old(storage).(note := Some(noteField))
      ensures groups == old(groups) && selectedGroupId == old(selectedGroupId)
      ensures modalOpen == old(modalOpen) && selectOptions == old(selectOptions)
      ensures notice == Notice("Note saved!", Success)
    {
      note := noteField;
      storage := storage.(note := Some(note));
      notice := Notice("Note saved!", Success);
    }

    /** `createGroup`, given the name field, `Date.now()` and the ISO time. A blank name is
        refused and nothing changes; otherwise the new group is appended, the list stored and
        the selector rebuilt. */
    method CreateGroup(nameField: string, now: nat, createdAt: string) returns (notice: Notice)
      requires Valid()
      modifies this
      ensures Valid()
      ensures match CreatedGroups(old(groups), nameField, now, createdAt)
        case None =>
          && groups == old(groups) && storage == old(storage) && selectOptions == old(selectOptions)
          && notice == Notice("Please enter a group name", Error)
        case Some(gs) =>
          && groups == gs && storage == old(storage).(groups := Some(gs))
          && selectOptions == View.SelectOptions(gs)
          && notice == Notice("Group \"" + JsText.Trim(nameField) + "\" created!", Success)
      ensures note == old(note) && selectedGroupId == old(selectedGroupId) && modalOpen == old(modalOpen)
      ensures WithinCapacity(old(groups)) ==> WithinCapacity(groups)
    {
      var created := CreatedGroups(groups, nameField, now, createdAt);
      match created
      case None =>
        notice := Notice("Please enter a group name", Error);
      case Some(gs) =>
        groups := gs;
        storage := storage.(groups := Some(groups));
        selectOptions := View.SelectOptions(groups);
        notice := Notice("Group \"" + JsText.Trim(nameField) + "\" created!", Success);
    }

    /** `deleteGroup`, given the answer to the confirmation prompt: on "yes" every group with
        the id goes (a no-op on the list when there is none), the list is stored and the
        selector rebuilt; on "no" nothing changes. */
    method DeleteGroup(id: string, confirmed: bool) returns (notice: Option<Notice>)
      requires Valid()
      modifies this
      ensures Valid()
      ensures !confirmed ==>
        && groups == old(groups) && storage == old(storage) && selectOptions == old(selectOptions)
        && notice == None
      ensures confirmed ==>
        && groups == RemovedGroup(old(groups), id)
        && storage == old(storage).(groups := Some(groups))
        && selectOptions == View.SelectOptions(groups)
        && notice == Some(Notice("Group deleted", Info))
      ensures note == old(note) && selectedGroupId == old(selectedGroupId) && modalOpen == old(modalOpen)
      ensures WithinCapacity(old(groups)) ==> WithinCapacity(groups)
    {
      if !confirmed {
        return None;
      }
      groups := RemovedGroup(groups, id);
      storage := storage.(groups := Some(groups));
      selectOptions := View.SelectOptions(groups);
      notice := Some(Notice("Group deleted", Info));
    }

    /** `showUrlModalForCurrent`: opens the dialog with the current page's title and address
        in its fields (returned); the pending target is left as it was. */
    method ShowUrlModalForCurrent() returns (titleField: string, urlField: string)
      requires Valid()
      modifies this
      ensures Valid()
      ensures modalOpen && selectedGroupId == old(selectedGroupId)
      ensures titleField == CurrentPageTitle && urlField == CurrentPageUrl
      ensures groups == old(groups) && note == old(note) && storage == old(storage)
      ensures selectOptions == old(selectOptions)
    {
      modalOpen := true;
      titleField, urlField := CurrentPageTitle, CurrentPageUrl;
    }

    /** `showUrlModalForGroup`: opens the dialog with empty fields (returned), targeting the
        group. */
    method ShowUrlModalForGroup(groupId: string) returns (titleField: string, urlField: string)
      requires Valid()
      modifies this
      ensures Valid()
      ensures modalOpen && selectedGroupId == Some(groupId)
      ensures titleField == [] && urlField == []
      ensures groups == old(groups) && note == old(note) && storage == old(storage)
      ensures selectOptions == old(selectOptions)
    {
      selectedGroupId := Some(groupId);
      modalOpen := true;
      titleField, urlField := "", "";
    }

    /** `hideUrlModal`: closes the dialog and clears the pending target. */
    method HideUrlModal()
      requires Valid()
      modifies this
      ensures Valid()
      ensures !modalOpen && selectedGroupId == None
      ensures groups == old(groups) && note == old(note) && storage == old(storage)
      ensures selectOptions == old(selectOptions)
    {
      modalOpen := false;
      selectedGroupId := None;
    }

    /** `saveUrl`, given the dialog's title and address fields, the selector's value,
        `Date.now()` and the ISO time. Each of the three refusals leaves every field as it
        was. On success the link is added to the first group with the resolved id, the list
        is stored, and the dialog closes with its target cleared; the selector is not rebuilt,
        so its labels keep the old counts. */
    method SaveUrl(titleField: string, urlField: string, selectValue: string, now: nat, addedAt: string)
      returns (notice: Notice)
      requires Valid()
      modifies this
      ensures Valid()
      ensures var target := TargetGroupId(old(selectedGroupId), selectValue);
        match AddedUrl(old(groups), target, titleField, urlField, UrlId(now), addedAt)
        case Err(e) =>
          && groups == old(groups) && storage == old(storage)
          && selectedGroupId == old(selectedGroupId) && modalOpen == old(modalOpen)
          && notice == Notice(if e == MissingField then "Please fill all fields"
                              else if e == GroupNotFound then "Group not found"
                              else "This group already has 10 URLs (maximum)", Error)
        case Ok(gs) =>
          && groups == gs && storage == old(storage).(groups := Some(gs))
          && selectedGroupId == None && !modalOpen
          && notice == Notice("URL added!", Success)
      ensures note == old(note) && selectOptions == old(selectOptions)
      ensures WithinCapacity(old(groups)) ==> WithinCapacity(groups)
    {
      var target := TargetGroupId(selectedGroupId, selectValue);
      var added := AddedUrl(groups, target, titleField, urlField, UrlId(now), addedAt);
      match added
      case Err(MissingField) =>
        notice := Notice("Please fill all fields", Error);
      case Err(GroupNotFound) =>
        notice := Notice("Group not found", Error);
      case Err(GroupFull) =>
        notice := Notice("This group already has 10 URLs (maximum)", Error);
      case Ok(gs) =>
        groups := gs;
        storage := storage.(groups := Some(groups));
        HideUrlModal();
        notice := Notice("URL added!", Success);
    }

    /** `deleteUrl`: in the first group with `groupId`, the links with `urlId` go and the list
        is stored; with no such group nothing changes and nothing is shown. The selector is
        not rebuilt. */
    method DeleteUrl(groupId: string, urlId: string) returns (notice: Option<Notice>)
      requires Valid()
      modifies this
      ensures Valid()
      ensures match RemovedUrl(old(groups), groupId, urlId)
        case None => groups == old(groups) && storage == old(storage) && notice == None
        case Some(gs) =>
          && groups == gs && storage == old(storage).(groups := Some(gs))
          && notice == Some(Notice("URL deleted", Info))
      ensures note == old(note) && selectedGroupId == old(selectedGroupId) && modalOpen == old(modalOpen)
      ensures selectOptions == old(selectOptions)
      ensures WithinCapacity(old(groups)) ==> WithinCapacity(groups)
    {
      var removed := RemovedUrl(groups, groupId, urlId);
      match removed
      case None =>
        notice := None;
      case Some(gs) =>
        groups := gs;
        storage := storage.(groups := Some(groups));
        notice := Some(Notice("URL deleted", Info));
    }

    /** The delete-link button: `deleteUrl` runs only when the prompt is answered "yes". */
    method OnDeleteUrlClick(groupId: string, urlId: string, confirmed: bool) returns (notice: Option<Notice>)
      requires Valid()
      modifies this
      ensures Valid()
      ensures !confirmed ==> groups == old(groups) && storage == old(storage) && notice == None
      ensures confirmed ==> match RemovedUrl(old(groups), groupId, urlId)
        case None => groups == old(groups) && storage == old(storage) && notice == None
        case Some(gs) =>
          && groups == gs && storage == old(storage).(groups := Some(gs))
          && notice == Some(Notice("URL deleted", Info))
      ensures note == old(note) && selectedGroupId == old(selectedGroupId) && modalOpen == old(modalOpen)
      ensures selectOptions == old(selectOptions)
      ensures WithinCapacity(old(groups)) ==> WithinCapacity(groups)
    {
      notice := None;
      if confirmed {
        notice := DeleteUrl(groupId, urlId);
      }
    }

    /** A click on the header of the group at position `i` of the rendered list flips its
        flag and re-renders; the list is not stored. */
    method ToggleExpansion(i: nat)
      requires i < |groups|
      requires Valid()
      modifies this
      ensures Valid()
      ensures groups == old(groups)[i := Toggled(old(groups)[i])]
      ensures groups[i].urls == old(groups)[i].urls
      ensures storage == old(storage) && note == old(note) && selectedGroupId == old(selectedGroupId)
      ensures modalOpen == old(modalOpen) && selectOptions == old(selectOptions)
      ensures WithinCapacity(old(groups)) ==> WithinCapacity(groups)
    {
      groups := groups[i := Toggled(groups[i])];
    }
  }

  /** A client of the contracts above: on an empty store, create a group from a non-blank
      name and add one link from non-blank fields; the group then holds that one link. */
  method CreateAndAddScenario(nameField: string, titleField: string, urlField: string) returns (p: Panel)
    requires !JsText.AllWhiteSpace(nameField)
    requires !JsText.AllWhiteSpace(titleField) && !JsText.AllWhiteSpace(urlField)
    ensures fresh(p) && |p.groups| == 1 && p.groups[0].id == GroupId(1000) && |p.groups[0].urls| == 1
    ensures p.selectedGroupId == None && !p.modalOpen && p.Valid()
  {
    p := new Panel(Storage(None, None));
    var n := p.CreateGroup(nameField, 1000, "created");
    assert n.kind == Success && |p.groups| == 1 && p.groups[0].urls == [] && p.groups[0].id == GroupId(1000);
    IdsDistinct(1000, 1000);
    n := p.SaveUrl(titleField, urlField, GroupId(1000), 1001, "added");
    assert n.kind == Success;
  }

  /** Continuing: nine more links are accepted, the eleventh is refused as full and the list
      is left as it was, with the badge reading back as 10. */
  method FillGroupScenario(nameField: string, titleField: string, urlField: string)
    requires !JsText.AllWhiteSpace(nameField)
    requires !JsText.AllWhiteSpace(titleField) && !JsText.AllWhiteSpace(urlField)
  {
    var p := CreateAndAddScenario(nameField, titleField, urlField);
    IdsDistinct(1000, 1000);
    var k := 1;
    while k < 10
      invariant 1 <= k <= 10
      invariant |p.groups| == 1 && p.groups[0].id == GroupId(1000) && |p.groups[0].urls| == k
      invariant p.selectedGroupId == None && p.Valid()
    {
      var n := p.SaveUrl(titleField, urlField, GroupId(1000), 1001 + k, "added");
      k := k + 1;
    }
    var before := p.groups;
    var n := p.SaveUrl(titleField, urlField, GroupId(1000), 2000, "added");
    assert n == Notice("This group already has 10 URLs (maximum)", Error);
    assert p.groups == before && View.IsFull(p.groups[0]);
    View.CountTextReadsBack(p.groups[0]);
  }
}
