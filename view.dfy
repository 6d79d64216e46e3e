/** What the panel shows, as pure functions of the state: each group's header (count badge,
    full flag, disabled add button, open or closed body), the group selector's options and the
    note's character counter. */
module View {
  import opened Options
  import opened Groups
  import Decimal
  import JsText

  /** The count badge, `${urlCount}/${MAX_URLS_PER_GROUP}`. */
  function CountText(g: Group): string
  {
    Decimal.Show(|g.urls|) + "/" + Decimal.Show(MaxUrlsPerGroup)
  }

  /** A numeral followed by a fixed suffix reads back as the number. */
  lemma NumeralBeforeSuffix(n: nat, suffix: string)
    ensures var s := Decimal.Show(n) + suffix;
      && |s| >= |suffix| + 1 && s[|s| - |suffix|..] == suffix
      && Decimal.AllDigits(s[..|s| - |suffix|]) && Decimal.Parse(s[..|s| - |suffix|]) == n
  {
    var s := Decimal.Show(n) + suffix;
    assert s[..|s| - |suffix|] == Decimal.Show(n);
    Decimal.ParseShow(n);
  }

  /** The badge is the link count, a slash and the capacity: reading the digits before "/10"
      gives back the count. */
  lemma CountTextReadsBack(g: Group)
    ensures var s := CountText(g);
      && |s| >= 4 && s[|s| - 3..] == "/10"
      && Decimal.AllDigits(s[..|s| - 3]) && Decimal.Parse(s[..|s| - 3]) == |g.urls|
  {
    assert Decimal.Show(MaxUrlsPerGroup) == "10" by {
      assert Decimal.Show(10) == Decimal.Show(1) + [Decimal.DigitChar(0)];
    }
    assert CountText(g) == Decimal.Show(|g.urls|) + "/10";
    NumeralBeforeSuffix(|g.urls|, "/10");
  }

  /** Two groups show the same badge exactly when they hold the same number of links. */
  lemma CountTextInjective(g: Group, h: Group)
    ensures CountText(g) == CountText(h) <==> |g.urls| == |h.urls|
  {
    CountTextReadsBack(g);
    CountTextReadsBack(h);
  }

  /** `urlCount >= MAX_URLS_PER_GROUP`: drives the "full" marker, the "Full" badge and the
      disabled add button. */
  predicate IsFull(g: Group)
  {
    |g.urls| >= MaxUrlsPerGroup
  }

  /** `group.isExpanded !== false`: an absent flag shows the group open. */
  predicate RendersExpanded(g: Group)
  {
    g.isExpanded != Some(false)
  }

  /** The add button is disabled on exactly the group a well-formed add would refuse as full. */
  lemma FullIffAddRefused(groups: seq<Group>, targetId: string, titleField: string, urlField: string,
                          entryId: string, addedAt: string)
    requires JsText.Trim(titleField) != [] && JsText.Trim(urlField) != [] && targetId != []
    requires FindGroup(groups, targetId).Some?
    ensures IsFull(groups[FindGroup(groups, targetId).value])
      <==> AddedUrl(groups, targetId, titleField, urlField, entryId, addedAt) == Err(GroupFull)
  {
  }

  /** Toggling a group whose flag is set flips how it is shown; toggling it twice shows it as
      before. */
  lemma ToggleFlipsRendering(g: Group)
    requires g.isExpanded.Some?
    ensures RendersExpanded(Toggled(g)) == !RendersExpanded(g)
    ensures RendersExpanded(Toggled(Toggled(g))) == RendersExpanded(g)
  {
    ToggledTwice(g);
  }

  /** A group whose stored record has no flag is shown open, and so is it after the first
      toggle (`!undefined` is `true`): the first click shows no change, and two toggles leave
      it closed. */
  lemma ToggleUnsetFlag(g: Group)
    requires g.isExpanded.None?
    ensures RendersExpanded(g) && RendersExpanded(Toggled(g))
    ensures !RendersExpanded(Toggled(Toggled(g)))
  {
  }

  /** One rendered group header and its body. */
  datatype GroupView = GroupView(id: string, name: string, count: string, full: bool,
                                 addDisabled: bool, expanded: bool, urls: seq<UrlEntry>)

  /** The groups list: the empty-state placeholder, or one view per group. */
  datatype ListView = EmptyState | GroupList(items: seq<GroupView>)

  function GroupViewOf(g: Group): GroupView
  {
    GroupView(g.id, g.name, CountText(g), IsFull(g), IsFull(g), RendersExpanded(g), g.urls)
  }

  /** `renderGroups`, less the HTML: the placeholder when there is no group, otherwise the
      groups in list order, each with its badge, full flag (which also disables its add
      button), visibility and links. */
  function Render(groups: seq<Group>): (v: ListView)
    ensures v.EmptyState? <==> groups == []
    ensures v.GroupList? ==> |v.items| == |groups|
    ensures v.GroupList? ==> forall i :: 0 <= i < |groups| ==>
      var item := v.items[i];
      && item.id == groups[i].id && item.name == groups[i].name && item.urls == groups[i].urls
      && item.count == CountText(groups[i])
      && item.full == item.addDisabled == (|groups[i].urls| >= MaxUrlsPerGroup)
      && item.expanded == (groups[i].isExpanded != Some(false))
  {
    if groups == [] then EmptyState
    else GroupList(seq(|groups|, i requires 0 <= i < |groups| => GroupViewOf(groups[i])))
  }

  /** One `<option>` of the group selector. */
  datatype SelectOption = SelectOption(value: string, text: string, disabled: bool)

  /** The only option when there is no group. */
  const Placeholder := SelectOption("", "Create a group first", true)

  /** `${group.name} (${group.urls.length}/${MAX_URLS_PER_GROUP})`. */
  function OptionLabel(g: Group): string
  {
    g.name + " (" + CountText(g) + ")"
  }

  /** `updateGroupSelect`, less the DOM: the disabled placeholder when there is no group,
      otherwise one enabled option per group, in list order, valued by the group's id. */
  function SelectOptions(groups: seq<Group>): (r: seq<SelectOption>)
    ensures groups == [] ==> r == [Placeholder]
    ensures groups != [] ==> |r| == |groups|
    ensures groups != [] ==> forall i :: 0 <= i < |groups| ==>
      r[i].value == groups[i].id && r[i].text == OptionLabel(groups[i]) && !r[i].disabled
  {
    if groups == [] then [Placeholder]
    else seq(|groups|, i requires 0 <= i < |groups| => SelectOption(groups[i].id, OptionLabel(groups[i]), false))
  }

  /** Any option of a freshly built selector resolves: an enabled one names an existing
      group, and the placeholder's empty value is refused as a missing field. */
  lemma SelectedOptionResolves(groups: seq<Group>, k: nat, titleField: string, urlField: string,
                               entryId: string, addedAt: string)
    requires k < |SelectOptions(groups)|
    ensures var o := SelectOptions(groups)[k];
      && (!o.disabled ==> FindGroup(groups, o.value).Some?)
      && (o.disabled ==> AddedUrl(groups, o.value, titleField, urlField, entryId, addedAt) == Err(MissingField))
  {
    var o := SelectOptions(groups)[k];
    if !o.disabled {
      assert groups[k].id == o.value;
    }
  }

  /** The character counter, `${noteInput.value.length} characters`. */
  function CharCountText(noteField: string): string
  {
    Decimal.Show(JsText.Utf16Length(noteField)) + " characters"
  }

  /** The counter's number is the field's length in UTF-16 code units, which is its number
      of characters when it has none outside the Basic Multilingual Plane. */
  lemma CharCountReadsBack(noteField: string)
    ensures var s := CharCountText(noteField);
      && Decimal.AllDigits(s[..|s| - 11]) && Decimal.Parse(s[..|s| - 11]) == JsText.Utf16Length(noteField)
      && ((forall k :: 0 <= k < |noteField| ==> noteField[k] as int <= 0xFFFF) ==> Decimal.Parse(s[..|s| - 11]) == |noteField|)
  {
    NumeralBeforeSuffix(JsText.Utf16Length(noteField), " characters");
    if forall k :: 0 <= k < |noteField| ==> noteField[k] as int <= 0xFFFF {
      JsText.Utf16LengthBmp(noteField);
    }
  }

  /** "hello" is counted as "5 characters". */
  lemma CharCountHello()
    ensures CharCountText("hello") == "5 characters"
  {
    JsText.Utf16LengthBmp("hello");
  }
}
