# nixos-conf-editor: a verified model of the option and configuration logic

nixos-conf-editor is a graphical editor for a NixOS configuration file. It loads the schema of
all NixOS options and a user's configuration. The user browses the options as a tree and edits
values, which are type-checked by the Nix evaluator. The pending edits are then written back
into the configuration text. This project models the non-graphical core of the editor in Dafny:

- **The option tree** (`options.dfy`): the dotted option keys become a tree of attribute sets,
  with the option names at their parent node, and `attrloc` looks up a node by a path.
- **Paths, values and the batched editor** (`config.dfy`):
  - `opconfigured` and `getconfvals` answer questions about the keys of the configuration.
  - `readval` reads a value through a schema path whose `*` segments index into lists.
  - `editconfig` applies a map of pending edits to the configuration text. Plain edits write or
    remove a value. Indexed edits `list.3.field` are grouped per list. Each element is rebuilt
    by a recursive `editconfig`, and the list literal is written back in index order.
- **The type check** (`savechecking.dfy`): the Nix expression that selects an option's type
  through `getSubOptions`, and the mapping of the evaluator's outcome.
- **The new-instance dialog** (`searchentry.dfy`): naming the `<name>` segments of a schema
  path and numbering each `*` one past the largest index in use.
- **The search page** (`searchpage.dfy`): the substring filter, the longest-name-first
  ranking and the cap of 1500 results.
- **The main window** (`window.dfy`): position, configured values, pending edits, busy flag,
  and the option, attribute and breadcrumb lists.
- **The option page** (`optionpage.dfy`): the configured value beside the edited one,
  trimming, and the acceptance rule for the type check's answer.

The support modules model what the core uses from Rust's standard library:

- `strings.dfy`: `split`/`join` on a separator, `parse::<usize>`, `to_string`, `trim`,
  `replace`, byte length and the lexicographic order of `str`.
- `sorting.dfy`: `sort`/`sort_by`, as a stable sort.
- `wrappers.dfy`: `Option` and `Result`.

The `nix_editor` library is given as the fields of `Config.Primitives`, which are functions
returning `Result`: `get_collection`, `readvalue`, `getarrvals`, `write`, `deref`, plus the
re-indentation of list elements. Configuration text is passed in where the source reads a file.

Where a step of the source changes state, the model is imperative:

- The window, the option page, the dialog and the search page are classes whose methods update
  their fields. Messages they send are returned as event sequences.
- The loops of `buildtree`, `getconfvals`, `readval`, `editconfig`, `checkcmd`, the dialog's
  save and the search are methods with loop invariants.
- Each such method is proved equal to a specification function, and the properties are proved
  about those functions.
- Where the source iterates over a `HashMap`, the iteration order is a parameter that enumerates
  the keys, or is chosen by `:|`. The results are proved for every order.

## Model

| member | source | states |
|---|---|---|
| `Options.AttrLocConcat` | src/parse/options.rs:32-43 | Looking up `p + q` is looking up `q` from the node `p` reaches, and gives `None` once any segment of `p` is missing; the empty path gives the node itself |
| `Options.EmptyTreeLookup` | src/parse/options.rs:41 | In a fresh node only the empty path is reachable, and it has no options |
| `Options.InsertKeyEffect` | src/parse/options.rs:68-82 | Inserting a key makes reachable exactly its proper prefixes, keeps every node reachable before and its options (nodes are reused, never replaced), and appends the key's last segment to the options of the node its other segments reach, and nowhere else |
| `Options.SingleSegmentKey` | src/parse/options.rs:59-61 | A key without a dot is pushed onto the root's options and creates no node |
| `Options.BuildTree` | src/parse/options.rs:45-66 | After the loop over all keys, a path is a node exactly when it is empty or a proper prefix of some key, and the options at every path are the last segments of the keys whose other segments are that path, in input order and with repetitions |
| `Options.BuildStep` | src/parse/options.rs:51-64 | One iteration of the loop keeps the two facts above, extended by one key |
| `Options.InsertOne` | src/parse/options.rs:52-61 | The body of the loop for one key, creating the first child when missing, is the recursive insertion of that key |
| `Config.PrefixIsNextSegment` | src/parse/config.rs:21-30 | A key matches `pos + [attr]` in `opconfigured` exactly when `pos + [attr]` is a prefix of its segments, so keys with fewer segments never match |
| `Config.ConfiguredIffListed` | src/parse/config.rs:16-53 | `opconfigured(conf, pos, attr)` holds exactly when `getconfvals(conf, pos)` lists `attr` |
| `Config.ConfiguredAfterInsert` | src/parse/config.rs:16-31 | After one key is added, `opconfigured` holds exactly when it held before or the new key has `pos + [attr]` as a prefix |
| `Config.GetConfVals` | src/parse/config.rs:41-53 | The result has no repetitions and lists exactly the segments at position `|pos|` of the keys that are longer than `pos` and start with it, whatever the iteration order |
| `Config.StarGroups` | src/parse/config.rs:178-192 | Cutting a schema path at its `*` segments gives one more group than there are `*` segments |
| `Config.StarGroupsFlatten` | src/parse/config.rs:178-192 | The groups, concatenated, are the schema path without its `*` segments, so every other segment is copied from the schema path |
| `Config.StarIndices` | src/parse/config.rs:183-187 | There are at most as many collected indices as `*` segments; a query segment that is not a number gives none |
| `Config.CutAtStars` | src/parse/config.rs:178-192 | The first loop of `readval` computes exactly the groups and the indices above |
| `Config.WalkGroups` | src/parse/config.rs:194-231 | The second loop reads through the list at each group while indices remain, then reads values, and stops at the first failed read or out-of-range index |
| `Config.ReadVal` | src/parse/config.rs:172-240 | `readval` is the direct read when the schema path has no `*`, and otherwise the walk through the groups |
| `Config.ReadValueNoStar` | src/parse/config.rs:175-176 | Without a `*` in the schema path, `readval` succeeds exactly when the direct read of the query does, and with the same value |
| `Config.StarFreeGroups` | src/parse/config.rs:178-192 | A schema path without `*` segments is one group and supplies no index |
| `Config.OneStarGroups` | src/parse/config.rs:178-192 | A schema path with one `*` is cut into the segments before and after it, and supplies the query's number at that position, if it is one |
| `Config.ReadValueStarInsideSegment` | src/parse/config.rs:175-192 | A `*` that is only part of a segment still takes the wildcard branch: the schema path itself is read, not the query, and a failure is reported as "Failed to read value from configuration" |
| `Config.ReadValueOneStar` | src/parse/config.rs:195-231 | Through one list index: the list before the `*` is read, the element at the query's index is taken, and the value after the `*` is read from it; an index past the end gives "Index out of bounds", and a failed read gives an error |
| `Config.OpConfigured2Direct` | src/parse/config.rs:33-39 | Without a `*`, `opconfigured2` asks whether the concrete path can be read directly |
| `Config.FirstIndexSegment` | src/parse/config.rs:83-88 | The position found is the first segment that parses as an index, and none is found exactly when no segment parses |
| `Config.IndexedParts` | src/parse/config.rs:84-90 | The value path after the index is shorter than the edit, so the recursion of `editconfig` ends |
| `Config.InnerListOrder` | src/parse/config.rs:113-115 | The one-edit map of a recursive call has a list group exactly when its key has a numeric segment |
| `Config.IndicesBelowBeyond` | src/parse/config.rs:140-141 | Any bound above every index of a group lists the same indices in ascending order |
| `Config.AscendingIndices` | src/parse/config.rs:140-141 | The indices of a group, ascending, each once |
| `Config.SortIndices` | src/parse/config.rs:140-141 | Collecting a group's indices and sorting them gives the ascending listing of the group's indices |
| `Config.KeptValuesMeaning` | src/parse/config.rs:145-146 | No kept element is an empty record `{}` once trimmed and stripped of newlines and spaces, every element that is not one is kept, and every kept element is the value of some listed index |
| `Config.KeptValuesConcat` | src/parse/config.rs:140-146 | Filtering distributes over concatenation of the index listing, so the kept elements come in the listing's (ascending index) order, one per listed non-empty slot |
| `Config.KeptValuesSnoc` | src/parse/config.rs:140-146 | One more index at the end adds its element at the end exactly when it is not an empty record |
| `Config.SeedList` | src/parse/config.rs:99-107 | An empty group is filled with the elements `getarrvals` reads, by position, and stays empty when the read fails |
| `Config.LoadGroup` | src/parse/config.rs:93-107 | A group is read from the text only while it has no elements; otherwise the elements collected so far are used |
| `Config.IndexedPieces` | src/parse/config.rs:84-91 | An indexed edit `o.i.v` is cut into the list path before the first numeric segment, the index and the value path after it |
| `Config.ApplyIndexedEdit` | src/parse/config.rs:84-116 | Element `i` of the group, or `{}` when there is none, is replaced by a recursive `editconfig` of it at `v`; a failure of the recursion is the failure of the whole |
| `Config.ApplyEdit` | src/parse/config.rs:83-137 | An edit with a numeric segment is an indexed edit; a plain edit with an empty value is removed with `deref`, otherwise written; a failed primitive gives an error naming the option |
| `Config.EditStepKeys` | src/parse/config.rs:116 | An edit adds its list group, if any, to the groups being rebuilt |
| `Config.CollectKeys` | src/parse/config.rs:82-138 | The groups the first loop rebuilds are exactly those of the indexed edits |
| `Config.CollectStep` | src/parse/config.rs:82-138 | Each further edit of the first loop is one more step on the text and groups the earlier edits left |
| `Config.CollectErrorStops` | src/parse/config.rs:115-136 | Once an edit fails, `editconfig` returns that failure |
| `Config.WriteErrorStops` | src/parse/config.rs:159-167 | Once a list write fails, `editconfig` returns that failure |
| `Config.CollectEdits` | src/parse/config.rs:82-138 | The first loop applies the edits in the map's iteration order, with the early return on failure |
| `Config.WriteOneList` | src/parse/config.rs:140-167 | One group is written back as a list literal of its kept elements in ascending index order, each re-indented on its own line; a failed write names the list |
| `Config.WriteBack` | src/parse/config.rs:139-168 | The second loop writes every rebuilt list, in the map's iteration order, with the early return on failure |
| `Config.EditConfig` | src/parse/config.rs:72-170 | `editconfig` is the specification `EditSpec` for the given iteration orders of the edit map and of the groups |
| `Config.EditNothing` | src/parse/config.rs:78-169 | With no pending edits the text is returned unchanged |
| `Config.EditSinglePlain` | src/parse/config.rs:117-137 | A single plain edit removes the option when the value is empty and writes it otherwise; a failed primitive gives "Failed to deref" or "Failed to set value" with the option |
| `Config.EditSingleIndexed` | src/parse/config.rs:83-168 | A single indexed edit reads the list at `o`, edits element `i` (`{}` when the list is shorter) at `v` by a recursive `editconfig`, and writes the list back at `o` |
| `Config.EditSpecOne` | src/parse/config.rs:82-168 | `editconfig` on one indexed edit is that edit followed by one write of its list |
| `Config.CollectOne` | src/parse/config.rs:82-116 | The first loop over one indexed edit is that edit on no groups |
| `Config.WriteListsOne` | src/parse/config.rs:139-168 | The second loop over one group is one write |
| `Config.IndexedEditKeepsOtherSlots` | src/parse/config.rs:93-116 | An indexed edit leaves the text alone and changes only the element it addresses: a group with elements is not read again and keeps its other elements, and the other groups are unchanged |
| `SaveChecking.CheckGroups` | src/ui/savechecking.rs:49-66 | The grouping always has a first group |
| `SaveChecking.GroupsFlatten` | src/ui/savechecking.rs:52-66 | The groups, concatenated, are the schema path without its `*` and `<name>` segments, in order |
| `SaveChecking.GroupsAtWildcard` | src/ui/savechecking.rs:53-58 | A `*` or `<name>` segment closes the current group and is in no group |
| `SaveChecking.GroupsAppend` | src/ui/savechecking.rs:63-65 | A segment that is neither a wildcard nor after an option name joins the current group |
| `SaveChecking.GroupsCountWildcards` | src/ui/savechecking.rs:52-66 | There is at least one group more than there are wildcards |
| `SaveChecking.GroupsAtOption` | src/ui/savechecking.rs:59-62 | For every schema path, a segment that is not a wildcard, follows a name that is an option and is not the last segment, starts a new group holding it alone |
| `SaveChecking.OptionBoundaryGroups` | src/ui/savechecking.rs:59-62 | An instance: `a.b.c` with `a` an option and `a.b` not one is grouped as `a` and `b.c` |
| `SaveChecking.SelectionNesting` | src/ui/savechecking.rs:67-70 | Each group after the first adds one level of `(... .type.getSubOptions [])`, so the expression opens with one parenthesis per such group, followed by `options.` |
| `SaveChecking.CheckExprNesting` | src/ui/savechecking.rs:47-72 | The check expression has at least as many levels of `getSubOptions` as the schema path has wildcards |
| `SaveChecking.CutGroups` | src/ui/savechecking.rs:52-66 | The first loop of `checkcmd` builds exactly the grouping, reading the concrete path only at wildcard positions |
| `SaveChecking.BuildSelection` | src/ui/savechecking.rs:67-70 | The second loop builds `options.<g0>` and wraps it once per later group |
| `SaveChecking.CheckCmd` | src/ui/savechecking.rs:47-72 | `checkcmd` is the selection through the groups followed by `.type.check` |
| `SaveChecking.UsersExample` | src/ui/savechecking.rs:45-46 | For `users.users.<name>.autoSubUidGidRange`, with `users` not an option, the expression is `(options.users.users.type.getSubOptions []).autoSubUidGidRange.type.check` |
| `SaveChecking.OptionBoundaryExample` | src/ui/savechecking.rs:59-71 | For `a.b.c` where `a` is an option, the expression selects `b.c` among the sub-options of `a` |
| `SaveChecking.Outcome` | src/ui/savechecking.rs:78-91 | The check is accepted exactly when the evaluator ran and succeeded; the text is its standard output then, its standard error after a failure, and the error text when it could not start |
| `SaveChecking.SaveCheck` | src/ui/savechecking.rs:42-92 | A save check evaluates `checkcmd` applied to the value and reports the outcome above |
| `SearchEntry.NameEntriesBefore` | src/ui/searchentry.rs:61-70 | One name-entry row per `<name>` segment, by increasing position, each showing the path with that segment in bold |
| `SearchEntry.NamesAtMeaning` | src/ui/searchentry.rs:86-96 | The names collected at a `<name>` position are distinct, and they are exactly the names existing paths under the same prefix have there |
| `SearchEntry.IndicesAtMeaning` | src/ui/searchentry.rs:107-119 | The indices collected at a `*` position are distinct, and they are exactly the numbers existing paths under the same prefix have there |
| `SearchEntry.NextFree` | src/ui/searchentry.rs:120-125 | The new index is in use nowhere and is above every index in use: 0 when none is, otherwise one past the largest |
| `SearchEntry.SortedLastIsMax` | src/ui/searchentry.rs:120-124 | After sorting, the last index is the largest in use |
| `SearchEntry.StarIndexFresh` | src/ui/searchentry.rs:106-132 | The index written at a `*` is a single segment that parses back as the new index, which no existing path under the same prefix uses |
| `SearchEntry.NestedStarStartsAtZero` | src/ui/searchentry.rs:106-132 | A `*` after an earlier `*` always gets index 0, since the earlier one is still the literal `*` while indices are chosen |
| `SearchEntry.ExistingNames` | src/ui/searchentry.rs:88-96 | The inner loop collects the names in use at the position |
| `SearchEntry.ExistingIndices` | src/ui/searchentry.rs:107-119 | The inner loop collects the indices in use at the position |
| `SearchEntry.NewIndex` | src/ui/searchentry.rs:107-125 | The index chosen for a `*` is the next free one there |
| `SearchEntry.WildcardAt` | src/ui/searchentry.rs:87-128 | At a `<name>` the name is announced when no existing path under the prefix has it; at a `*` a new list element is announced |
| `SearchEntry.WildcardEvents` | src/ui/searchentry.rs:86-129 | The loop over the schema path sends the announcements in order and numbers exactly the `*` positions, each with its next free index |
| `SearchEntry.NumberedCovers` | src/ui/searchentry.rs:126 | Every `*` position is numbered |
| `SearchEntry.NumberedOnlyStars` | src/ui/searchentry.rs:126 | Only `*` positions are numbered |
| `SearchEntry.NumberStars` | src/ui/searchentry.rs:130-132 | Writing the numbers in, in any order, gives the path with each `*` replaced by its index |
| `SearchEntry.SavedPath` | src/ui/searchentry.rs:130-132 | The opened path has one segment per segment of the schema path |
| `SearchEntry.SearchEntryModel.constructor` | src/ui/searchentry.rs:35-44 | The dialog starts hidden, with nothing to show |
| `SearchEntry.SearchEntryModel.Show` | src/ui/searchentry.rs:55-77 | The dialog shows the given paths, one name-entry row per `<name>`, and the concrete path is the schema path with `<name>` escaped, of the same length |
| `SearchEntry.SearchEntryModel.Close` | src/ui/searchentry.rs:78-81 | Closing hides the dialog and forgets the listed paths |
| `SearchEntry.SearchEntryModel.Save` | src/ui/searchentry.rs:82-146 | Saving hides the dialog and clears the paths; with a destination it opens it and keeps the concrete path; without one it announces the new names and elements and opens the concrete path with every `*` numbered |
| `SearchEntry.SearchEntryModel.SetName` | src/ui/searchentry.rs:147-155 | Setting a name stores it, or the placeholder for an empty name, and a position outside the path changes nothing |
| `SearchPage.EntryLeIsTotalPreorder` | src/ui/searchpage.rs:47 | The order of `sort` on `(String, bool)` is a total preorder |
| `SearchPage.RankedOrder` | src/ui/searchpage.rs:46-48 | The visiting order is a permutation of the options with longer names first and equal lengths in ascending order, because the length sort is stable |
| `SearchPage.Shown` | src/ui/searchpage.rs:49-55 | The matching rows are at most as many as the options |
| `SearchPage.ShownConcat` | src/ui/searchpage.rs:49-55 | The rows of two lists in sequence are the rows of each, in sequence |
| `SearchPage.ShownSound` | src/ui/searchpage.rs:50-54 | Every row is an option that contains each space-separated part of the query, split at dots with its configured flag |
| `SearchPage.ShownComplete` | src/ui/searchpage.rs:50-54 | Every matching option has a row |
| `SearchPage.Capped` | src/ui/searchpage.rs:56-58 | At most 1500 rows are kept, a prefix of the rows, all of them when there are no more |
| `SearchPage.ResultsMeaning` | src/ui/searchpage.rs:43-60 | A search shows at most 1500 rows, each a loaded option that matches; when fewer than 1500 match, every match has a row |
| `SearchPage.CappedPrefix` | src/ui/searchpage.rs:56-58 | Stopping once 1500 rows are collected gives the first 1500 matches |
| `SearchPage.FirstMatches` | src/ui/searchpage.rs:49-59 | The loop with its early stop shows exactly the first 1500 matches in the visiting order |
| `SearchPage.SearchPageModel.constructor` | src/ui/searchpage.rs:26-32 | The page starts with no options and no rows |
| `SearchPage.SearchPageModel.Search` | src/ui/searchpage.rs:43-60 | A search replaces the rows by the first 1500 matches in the visiting order |
| `SearchPage.SearchPageModel.LoadOptions` | src/ui/searchpage.rs:64-66 | Loading replaces the options and nothing else |
| `Window.Rows` | src/ui/window.rs:167-175 | There is one row per listed name |
| `Window.RowsAt` | src/ui/window.rs:167-187 | Each row is the path with the name appended, flagged configured by `opconfigured` on the configuration and modified by `opconfigured` on the pending edits |
| `Window.RowModifiedMeaning` | src/ui/window.rs:173 | A row is modified exactly when some pending edit lies at or below its path |
| `Window.EditMarksRows` | src/ui/window.rs:164-187 | An edit marks as modified the rows on its path and changes nothing else in the rows |
| `Window.BreadcrumbsMeaning` | src/ui/window.rs:188-198 | The breadcrumbs are the prefixes of the path of lengths 1 to `n`, in order, none an option |
| `Window.OpenedValue` | src/ui/window.rs:213-219 | An opened option shows its pending edit, else its configured value, else nothing |
| `Window.EditThenOpen` | src/ui/window.rs:211-219 | After an edit, opening the option shows the edit; after a reset it shows the configured value again |
| `Window.SearchEntryFlag` | src/ui/window.rs:134-138 | The flag of a search entry holds exactly when some configured key has all segments of the option key as a prefix |
| `Window.SearchEntries` | src/ui/window.rs:134-138 | There is one search entry per option key |
| `Window.AscendingUnique` | src/ui/window.rs:176-177 | There is one ascending listing of a set of names, so the attribute list does not depend on the map's iteration order |
| `Window.SortStrings` | src/ui/window.rs:164-177 | Sorting strings gives a permutation in ascending order |
| `Window.SortedKeysAscending` | src/ui/window.rs:176-177 | Sorting the keys of a map lists each key once, in strictly ascending order |
| `Window.PermutationEnumerates` | src/ui/window.rs:176-177 | A permutation of a listing of a set, each element once, is again such a listing |
| `Window.ListRows` | src/ui/window.rs:166-187 | The listing loops build the rows for the names in order |
| `Window.ListNode` | src/ui/window.rs:164-187 | The options of a node are listed sorted, and its child attribute sets in ascending order, with their flags |
| `Window.PrefixButtons` | src/ui/window.rs:189-197 | The breadcrumb loop pushes the prefixes in order |
| `Window.OptionButtons` | src/ui/window.rs:226-240 | An opened option has a breadcrumb per proper prefix and a last one for the option |
| `Window.KeysOf` | src/ui/window.rs:176 | Each key of a map, once, in some order |
| `Window.AppModel.constructor` | src/ui/window.rs:536-549 | The window starts busy on the loading page with the title header and the search hidden, with an empty position, tree, lists and maps; the configuration path and flake are parameters, where the source fixes `/etc/nixos/configuration.nix` and `None` |
| `Window.AppModel.InitialLoad` | src/ui/window.rs:129-142 | Loading takes the data, tree and configuration, goes to the root, stops being busy, and sends the search page one entry per option before moving to the root |
| `Window.AppModel.ReportLoadError` | src/ui/window.rs:143-146 | A load error stops the busy state and shows the error |
| `Window.AppModel.TryLoad` | src/ui/window.rs:147-150 | Retrying becomes busy and reloads the configured path |
| `Window.AppModel.SetConfPath` | src/ui/window.rs:154-160 | A new configuration path becomes busy, shows the loading page and loads from it |
| `Window.AppModel.ShowNode` | src/ui/window.rs:162-199 | Moving to a node lists its options and attributes and sets the breadcrumbs and the position |
| `Window.AppModel.MoveToPos` | src/ui/window.rs:161-210 | While busy nothing changes; a path that is no node changes no list; otherwise the lists, breadcrumbs (for a non-empty path) and position are those of the node; the list page shows, with the title header at the root |
| `Window.AppModel.OpenOptionAt` | src/ui/window.rs:211-245 | While busy nothing changes; otherwise the option page gets the option's data and the value it shows, the lists clear, the breadcrumbs lead to the option, and the option page shows |
| `Window.AppModel.ShowSearchBar` | src/ui/window.rs:246 | The search header shows unless the window is busy |
| `Window.AppModel.HideSearchBar` | src/ui/window.rs:247-254 | The header returns to the one for the position and the search page hides |
| `Window.AppModel.ToggleSearch` | src/ui/window.rs:255-261 | Toggling asks to hide the search bar when it shows and to show it otherwise, and does nothing while busy |
| `Window.AppModel.ShowSearchPage` | src/ui/window.rs:262-268 | Unless busy, the search runs and its page shows |
| `Window.AppModel.HideSearchPage` | src/ui/window.rs:269 | The search page hides |
| `Window.AppModel.SetBusy` | src/ui/window.rs:270 | The busy flag takes the given value |
| `Window.AppModel.SaveError` | src/ui/window.rs:271 | A save error is forwarded to the error dialog |
| `Window.AppModel.SaveWithError` | src/ui/window.rs:272-275 | Saving despite an error tells the option page the value was accepted |
| `Window.AppModel.SaveErrorReset` | src/ui/window.rs:276 | Resetting after an error resets the option page |
| `Window.AppModel.EditOpt` | src/ui/window.rs:277-279 | An edit inserts or replaces exactly one pending edit and changes nothing else |
| `Window.AppModel.Rebuild` | src/ui/window.rs:280-289 | A rebuild starts with the configuration text that `editconfig` produces from the pending edits, or reports why editing failed |
| `Window.AppModel.ResetConfig` | src/ui/window.rs:290-295 | A reset drops every pending edit and reopens the option on show |
| `Window.AppModel.SaveConfig` | src/ui/window.rs:296-306 | Saving drops every pending edit and takes the parsed configuration, or reports a file that does not parse and keeps the old values |
| `OptionPage.TrimTrailing` | src/ui/optionpage.rs:90-94 | Trimming removes every trailing newline and space: the result is a prefix that does not end in either, the removed characters are all such, and a value not ending in one is left as it is, so trimming twice is trimming once |
| `OptionPage.TrimTrailingEmpty` | src/ui/optionpage.rs:90-96 | A value trims to empty exactly when it consists of newlines and spaces |
| `OptionPage.OptPageModel.constructor` | src/ui/optionpage.rs:44-55 | The page starts at the window's position with empty values, so nothing is to be saved |
| `OptionPage.OptPageModel.UpdateOption` | src/ui/optionpage.rs:66-74 | Showing an option sets both values to its value, so nothing is to be saved |
| `OptionPage.OptPageModel.UpdateConf` | src/ui/optionpage.rs:75-79 | Only the edited value changes, and Save and Reset are enabled exactly when it differs from the configured one |
| `OptionPage.OptPageModel.ResetConf` | src/ui/optionpage.rs:80-86 | Resetting restores the edited value to the configured one |
| `OptionPage.OptPageModel.SaveConf` | src/ui/optionpage.rs:87-102 | The edited value is trimmed; an empty one is accepted at once, otherwise the page becomes busy and asks for a type check of the trimmed value |
| `OptionPage.OptPageModel.DoneSaving` | src/ui/optionpage.rs:103-122 | A check that printed `true` commits the edited value and sends it as a pending edit; other output reports a type error naming the type; a failed check reports its message; saving ends and the window stops being busy |
| `Strings.ParsePrintedIndex` | src/ui/searchentry.rs:131 | A printed index below 2^64 parses back as itself |
| `Strings.JoinSplit` | src/parse/config.rs:84-90 | Joining the pieces of a split with the separator gives the text back |
| `Strings.SplitJoin` | src/parse/config.rs:38 | Splitting a join of pieces without the separator gives the pieces back |
| `Sorting.Sort` | src/ui/searchpage.rs:47 | Sorting gives a permutation of the input ordered by the comparison |
| `Sorting.SortStable` | src/ui/searchpage.rs:48 | The sort is stable: elements the comparison ties keep their input order |

## Left out

- The `nix_editor` library (`get_collection`, `readvalue`, `getarrvals`, `write`, `deref`) is a
  foreign library whose source is not part of this model. Its operations are the fields of
  `Config.Primitives`, so every result holds for any behaviour of them.
- The re-indentation `replace` chain of `editconfig` is cosmetic formatting of Nix text. It is the
  `reindent` field of `Config.Primitives`.
- File reads (`fs::read_to_string` in `readval`, `getarrvals`, `editconfigpath` and `parseconfig`)
  are replaced by text parameters. `Window.AppModel.SaveConfig` takes the parse result as a
  parameter.
- Running `nix-instantiate` is the `evaluate` parameter of `SaveChecking.SaveCheck`. A
  `from_utf8` panic on output that is not UTF-8 is not modelled; the output is given as text.
- The asynchronous runtimes, channels and the one-second sleep of the save check are not
  modelled, and neither are widgets, factories, description rendering and the colour scheme.
  This also leaves out the window messages `Welcome`, `Close`, `ShowPrefMenu` and
  `SetDarkMode`, and the option page's `SetScheme`.
- The search page's `OpenOption` only forwards the path to the window, which opens it with
  `Window.AppModel.OpenOptionAt`.
- `HashMap` iteration orders are unspecified. They are parameters that list every key once
  (`order` and `listOrder` of `Config.EditConfig`), or they are chosen by `:|`
  (`Config.GetConfVals`, `Window.KeysOf`, `SearchEntry.NumberStars`). Every contract holds for
  all orders.
- `usize` is 64 bits wide for `parse::<usize>`. The index `usize::MAX + 1` that the source
  would compute after the largest possible index is not modelled: `SearchEntry.NextFree` is
  unbounded.
- SearchEntry.StarIndexFresh: assumes the new index is below 2^64, the case where it parses back.
- The files come from different revisions, and each file is modelled as written:
  - The window sends a three-field `UpdateOption` while the option page declares four.
  - The option page sends a three-field `SaveCheck(opt, refopt, conf)` while the save checker
    declares four, with `alloptions`; `OptionPage.Event.SaveCheck` has three fields and
    `SaveChecking.SaveCheck` takes `alloptions` as a parameter.
  - The window passes the configuration path to `editconfig`, which takes text;
    `Window.AppModel.Rebuild` passes the file's text.
  - The dialog sends `AddNameAttr`, `AddStar` and `OpenSearchOption`, which the window does not
    handle; they are returned as the dialog's events.
- `editconfig` sorts a copy of the edit keys but never uses it. The edits are applied in the
  map's iteration order, and the model assumes no order of plain edits. A description of
  `editconfig` that applies them in ascending key order does not match the code.
- `checkcmd` and `readval` collect indices from the concrete path. `checkcmd` never uses them;
  the model collects them and leaves them unused.
- `SortIndices`: the source collects a group's entries into a vector and sorts them by index.
  The model finds a bound above the indices in one pass over the set, then lists the indices
  below it in order. The result is the same ascending listing.
- Window.AppModel.MoveToPos: moving to the root keeps the previous breadcrumbs, as the source
  does; the model states this but does not claim it is intended.
- Window.AppModel.OpenOptionAt: requires the option's key to be in the loaded data when the
  window is not busy; the source panics on `unwrap` otherwise.
- SaveChecking.CheckCmd: requires a segment of the concrete path at every wildcard position;
  the source panics when indexing past it.
- SearchEntry.SearchEntryModel.Save: when saving a new instance, requires every loaded path to
  have a segment at each `<name>` position and to reach each `*` position
  (`DataCoversWildcards`); the source panics otherwise, on `dvec[i]` at
  src/ui/searchentry.rs:91 and on the slices `dvec[..i]` at src/ui/searchentry.rs:92 and :110.
- Config.ReadVal: requires a segment of the query at every `*` position; the source panics when
  indexing past it.
- Sorting.Sort is an insertion sort standing for the library's merge sort. Only its result is
  modelled: a permutation, sorted and stable.
