# Note & group store of the URL side panel

A Dafny model of the in-memory store behind the browser side panel in `sidepanel.js`. The store
holds one scratch note and an ordered list of groups. Each group holds at most ten saved links
(`MAX_URLS_PER_GROUP = 10`). The model covers:

- the state object: the groups, the note, the pending target group of the add-link dialog, and
  whether that dialog is open;
- the mutators: `saveNote`, `createGroup`, `deleteGroup`, `saveUrl`, `deleteUrl`, the expansion
  toggle, and the dialog's open and close transitions;
- the values the panel derives for display: the `n/10` badge, the "full" flag and disabled add
  button, expanded or collapsed, the group selector's options and labels, and the
  `N characters` counter.

Module layout, following the source's structure:

- `options.dfy` (`Options`): `Option` (JavaScript `null`) and `Result`.
- `text.dfy` (`JsText`): `String.prototype.trim` and the UTF-16 `length` of a string.
- `decimal.dfy` (`Decimal`): the decimal text a template literal gives a number, and its parse.
- `seqs.dfy` (`Seqs`): `Array.prototype.filter` and the subsequence relation it keeps.
- `groups.dfy` (`Groups`): the `Group` and `UrlEntry` records. Also the pure change each operation
  makes to the group list, and the capacity invariant.
- `view.dfy` (`View`): the display derivations of `renderGroups`, `updateGroupSelect` and
  `updateCharCount`.
- `sidepanel.dfy` (`SidePanel`): class `Panel`, which stands for the state object. Its methods
  change its fields in place. Each method's `ensures` states the whole new state in terms of the
  `Groups` functions, including every field that stays unchanged. A ghost field `storage` stands
  for the two `localStorage` keys. `Panel.Valid` states the dialog's invariant: a closed dialog has
  no pending target. The constructor establishes it, and every method requires and keeps it.

Inputs from the browser are method parameters:

- the text-field values and the selector's value;
- the answer to `confirm()`;
- `Date.now()` (as a `nat`) and `new Date().toISOString()` (as a string).

Each operation returns its status notification as a `Notice` (message and kind), or `None` where
the source shows none.

Behaviour of the code that the model keeps, though one might expect otherwise:

- The expansion toggle only re-renders; it does not write storage (`sidepanel.js:286-289`). The
  flipped flag reaches storage with the next mutation that stores the list.
- `saveUrl` and `deleteUrl` do not rebuild the group selector. `Panel.selectOptions` keeps the
  labels built last, so they show the count from before the change.
- A stored group record may lack `isExpanded`. Such a group renders expanded (`!== false`). Its
  first toggle sets the flag to `!undefined`, which is `true`, so nothing visibly changes.
  `View.ToggleUnsetFlag` proves it; toggling twice restores the view only when the flag is set
  (`View.ToggleFlipsRendering`).
- The confirmation before deleting a link sits in the click handler (`sidepanel.js:323`), not in
  `deleteUrl`. `Panel.OnDeleteUrlClick` models the handler and `Panel.DeleteUrl` the function.
- `SidePanel.CreateAndAddScenario` and `SidePanel.FillGroupScenario` are clients of the contracts.
  Starting from an empty store, they create a group from a non-blank name and add ten links from
  non-blank fields.
  The eleventh add is refused as full, and the list stays as it was.

## Model

| member | source | states |
|---|---|---|
| JsText.Trim | sidepanel.js:113 | The trimmed name is empty exactly when the field is all white space (the ECMAScript WhiteSpace and LineTerminator characters), and it is never longer than the field. |
| JsText.TrimStartCuts | sidepanel.js:113 | Trimming the front removes a white-space prefix only, and what remains does not begin with white space. |
| JsText.TrimEndCuts | sidepanel.js:113 | Trimming the back removes a white-space suffix only, and what remains does not end with white space. |
| JsText.TrimIsTrimOf | sidepanel.js:113 | The trimmed text is an infix of the field reached by cutting white space only, and it neither begins nor ends with white space. |
| JsText.TrimUnique | sidepanel.js:170-171 | Only one string fits that description: `Trim` is the one string that cuts white-space-only margins and leaves no white space at either end. |
| JsText.TrimIdempotent | sidepanel.js:113 | Trimming an already trimmed text changes nothing. |
| JsText.Utf16Length | sidepanel.js:94 | A string's `length` in UTF-16 code units lies between its number of characters and twice that number. |
| JsText.Utf16LengthBmp | sidepanel.js:94 | Text with no character above U+FFFF has a `length` equal to its character count. |
| JsText.Utf16LengthConcat | sidepanel.js:94 | `length` adds up over concatenation. |
| Decimal.Show | sidepanel.js:264 | A number's text is a non-empty run of decimal digits with no leading zero. |
| Decimal.ParseShow | sidepanel.js:264 | Reading a number's text back gives the number. |
| Decimal.ShowInjective | sidepanel.js:345 | Two numbers have the same text exactly when they are equal. |
| Seqs.Filter | sidepanel.js:139 | The filter keeps exactly the elements that satisfy the predicate: every element of the result satisfies it and comes from the input, and every input element that satisfies it is kept. The result is no longer than the input. |
| Seqs.FilterCounts | sidepanel.js:139 | Every value the predicate keeps occurs in the result exactly as often as in the input, and no other value occurs. |
| Seqs.FilterIsSubsequence | sidepanel.js:139 | Filtering keeps the relative order of the elements it keeps. |
| Seqs.FilterKeepsAll | sidepanel.js:207 | When every element satisfies the predicate, filtering returns the input unchanged. |
| Groups.IdsDistinct | sidepanel.js:121 | Ids `'group_' + Date.now()` and `'url_' + Date.now()` are equal only for the same millisecond. A group id is never a link id, and generated ids are never empty. |
| Groups.FindGroup | sidepanel.js:179 | `find` returns the first group with the id, or nothing exactly when no group has it. |
| Groups.CreatedGroups | sidepanel.js:112-128 | A blank name is refused. Otherwise exactly one group is appended, with the id from `now`, the trimmed name, the ISO time, no links and expanded. The earlier groups are unchanged and keep their order. The capacity bound is preserved. |
| Groups.CreatedNameIsTrimmed | sidepanel.js:113-122 | A created group's name is non-empty and already trimmed. |
| Groups.AddedUrl | sidepanel.js:169-197 | Refused as a missing field exactly when the trimmed title, the trimmed url or the target id is empty. Otherwise refused as not found exactly when no group has the id, then as full exactly when the first group with the id holds 10 or more links. On success that group held fewer than 10 links, and the result is the list with the new link, holding the trimmed title and url and the given id and time, pushed onto that group. |
| Groups.WithLinkAppended | sidepanel.js:197 | Pushing a link onto one group gives it exactly one more link, at its end, and leaves every other group and the list's length unchanged. Pushed onto a group below capacity, it keeps every group within capacity. |
| Groups.TotalUrlsUpdate | sidepanel.js:197 | Replacing one group changes the total link count by the difference of the two groups' counts. |
| Groups.AddedUrlAddsOne | sidepanel.js:185-197 | A successful add raises the total number of stored links by exactly one. |
| Groups.TotalUrlsBound | sidepanel.js:185-188 | Within capacity, the list holds at most ten links per group in total. |
| Groups.RemovedGroup | sidepanel.js:136-139 | The result has no group with the id. Every group without the id survives, as many times as it occurred. The rest keep their relative order. An id that no group has is a no-op. The capacity bound is preserved. |
| Groups.WithoutLink | sidepanel.js:207 | The links with `urlId` are removed. Every other link is kept, as many times as it occurred and in its order. With no such link, the list is unchanged. |
| Groups.RemovedUrl | sidepanel.js:204-207 | Nothing happens exactly when no group has `groupId`. Otherwise only the first group with that id changes, and only in its links, which become `WithoutLink` of the old ones. The capacity bound is preserved. |
| Groups.Toggled | sidepanel.js:286-287 | Toggling never alters the id, name, links or creation time. It always leaves a flag set, and it flips a flag that was set. |
| Groups.ToggledTwice | sidepanel.js:287 | Toggling a group with a set flag twice restores it. |
| View.NumeralBeforeSuffix | sidepanel.js:95 | A number's text followed by a fixed suffix reads back as that number. |
| View.CountTextReadsBack | sidepanel.js:264 | The badge is the link count's digits followed by `/10`, and the digits read back as the count. |
| View.CountTextInjective | sidepanel.js:264 | Two groups show the same badge exactly when they hold the same number of links. |
| View.FullIffAddRefused | sidepanel.js:235-268 | For well-formed fields and an existing target, the full flag (which also disables the add button) is set exactly when the add would be refused as full. |
| View.ToggleFlipsRendering | sidepanel.js:286-289 | With a set flag, a toggle flips whether the group's body is shown, and two toggles show it as before. |
| View.ToggleUnsetFlag | sidepanel.js:286-287 | A group without a stored flag is shown open both before and after its first toggle, and closed after the second. |
| View.Render | sidepanel.js:214-279 | The placeholder is shown exactly when there are no groups. Otherwise there is one view per group, in list order, with its id, name, links and badge. It is marked full and its add button disabled exactly when it holds 10 or more links, and it is shown open exactly when its flag is not `false`. |
| View.SelectOptions | sidepanel.js:330-347 | With no groups the selector holds a single disabled placeholder with an empty value. Otherwise it holds one enabled option per group, in list order, valued by the group's id and labelled `name (n/10)`. |
| View.SelectedOptionResolves | sidepanel.js:342-346 | Any enabled option of a freshly built selector names an existing group. The placeholder's empty value makes an add fail as a missing field. |
| View.CharCountReadsBack | sidepanel.js:93-96 | The counter's number reads back as the note field's UTF-16 length. That is its character count when it has no character above U+FFFF. |
| View.CharCountHello | sidepanel.js:95 | The text "hello" is counted as "5 characters". |
| SidePanel.TargetGroupId | sidepanel.js:172 | The target is the pending group id when it is set and non-empty, otherwise the selector's value. It is empty exactly when both are. |
| SidePanel.Panel.constructor | sidepanel.js:27-31 | Groups and note are loaded from storage, defaulting to an empty list and an empty note. Nothing is pending, the dialog is closed, and the selector is built from the groups. The panel starts valid: a closed dialog has no pending target. |
| SidePanel.Panel.SaveNote | sidepanel.js:86-91 | The note and its storage key become the field's text; nothing else changes; the result is a success notice. |
| SidePanel.Panel.CreateGroup | sidepanel.js:112-134 | A blank name leaves the groups, storage and selector untouched and returns an error notice. Otherwise the groups become `CreatedGroups`, are stored, and the selector is rebuilt, and the result is the success notice naming the group. The capacity bound is kept. |
| SidePanel.Panel.DeleteGroup | sidepanel.js:136-144 | Without confirmation nothing changes and nothing is shown. With it the groups become `RemovedGroup`, are stored, and the selector is rebuilt, and the result is an info notice. |
| SidePanel.Panel.ShowUrlModalForCurrent | sidepanel.js:146-150 | The dialog opens with the current-page title and address. The pending target is kept. |
| SidePanel.Panel.ShowUrlModalForGroup | sidepanel.js:152-157 | The dialog opens with empty fields, and the group becomes the pending target. |
| SidePanel.Panel.HideUrlModal | sidepanel.js:164-167 | The dialog closes and the pending target is cleared. |
| SidePanel.Panel.SaveUrl | sidepanel.js:169-202 | Each refusal (missing field, group not found, full) leaves the groups, storage, pending target and dialog as they were, and returns its own error message. On success the groups become `AddedUrl`, are stored, the dialog closes, the target is cleared and the result is a success notice. The selector and note are unchanged, and the capacity bound is kept. |
| SidePanel.Panel.DeleteUrl | sidepanel.js:204-212 | With no group of that id nothing changes and nothing is shown. Otherwise the groups become `RemovedUrl` and are stored, and the result is an info notice. The selector is not rebuilt. |
| SidePanel.Panel.OnDeleteUrlClick | sidepanel.js:316-326 | A link is deleted only on a confirmed prompt; otherwise nothing changes. |
| SidePanel.Panel.ToggleExpansion | sidepanel.js:286-289 | Only the clicked group changes, to its toggled form, and its links stay the same. Storage is not written. |
| SidePanel.CreateAndAddScenario | sidepanel.js:169-201 | On an empty store, creating a group from a non-blank name and adding one link leaves one group with one link, no pending target and the dialog closed. |

## Left out

- DOM construction and HTML templates: the model keeps only the values they show. Also left out: event-listener wiring, `focus()`, the keyboard shortcuts (lines 75-83: save on Ctrl/Cmd+S, close the dialog on Escape) and the show/hide of the group-creation form (`toggleGroupForm`, `hideGroupForm`). These are interface plumbing.
- `localStorage` and `JSON.stringify`/`JSON.parse`: storage is a ghost `Storage` value that each storing operation sets to the current list or note. The model does not cover parse failures or stored records of other shapes (non-string ids, a missing `urls`).
- `showNotification` and its timers: each operation returns the notice it would show instead.
- `confirm()`, `Date.now()` and `toISOString()` are parameters. Opening a link with `window.open` (lines 305-314) is a foreign call and is not modelled.
- Id uniqueness is not claimed: two creations in the same millisecond get the same id. `Groups.IdsDistinct` states that this is the only way.
- Object identity: groups are values in a sequence. The in-place `push` on the object returned by `find` becomes replacing the element at the first matching index. The header handler's captured group becomes its position in the rendered list.
- SidePanel.Panel.ToggleExpansion: requires the position to be in the list, because a handler exists only for a rendered group.
- Decimal.Show: writes every number out in full, whereas JavaScript uses exponent form from 10^21 upward. Link counts, lengths and millisecond clocks stay far below that.
- `console.log` calls and the missing HTML escaping.
