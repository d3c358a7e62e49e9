# Dashboard front end: a verified model of its state logic

This project models the sequential logic of a React dashboard front end.

- **Canvas.** The canvas holds placed components on a grid. It maps backend records onto canvas items, builds grid layouts and patches positions from the grid. On the end of a drag it saves positions, creating components the backend does not know yet. It also deletes and saves components.
- **Sidebar.** The sidebar's dashboard list numbers new dashboards. It refuses to delete the last one and chooses where to go after a delete. It renames with a trimmed name and a fallback.
- **Table editor.** The table editor keeps a header row and a grid of cells. Cells and headers are edited one at a time, and whole rows and columns are added and removed. A grid can also be loaded from CSV text, read by a quote-toggling line splitter.
- **Formatting.** Conditional-formatting rules style a cell. The first rule of the cell's column that matches wins.
- **Inline editors.** The inline text editor, the typed text block, the editable section and the editable description share one pattern. Click starts editing. Blur saves the trimmed text when it changed. Escape reverts. An emptied text notifies the parent or deletes the block, and a length cap refuses long input.
- **Share dialog.** It checks the address with its regular expression, in a fixed order, and maps the backend's HTTP status to a message.
- **Current-dashboard cell.** A rename only applies when the id matches.

Each component's state is a Dafny `class` whose fields are the component's state variables. Each handler is a method whose `ensures` gives the whole new state. Awaited backend calls appear in two ways:

- as parameters that say how the call settles (`Settled`, `CallOutcome`, `ShareOutcome`, `saveThrows`);
- as returned request values, so the contracts can say which requests are sent.

The decisions themselves are pure functions. Lemmas prove round trips (a CSV line joined and split again), idempotence (a layout change, a rename), exact characterizations (the e-mail check, the condition for a failed layout save) and what each save leaves in the component list.

Modules (one file each):

| module | file | models |
|---|---|---|
| `Common` | common.dfy | option type, toasts, filter, removal by index |
| `Text` | text.dfy | JavaScript `trim` (ECMAScript white space), ASCII `toLowerCase`, `includes`, decimal rendering |
| `DashboardContext` | context.dfy | src/contexts/DashboardContext.tsx |
| `Canvas` | canvas.dfy | src/pages/Dashboard.tsx |
| `Sidebar` | sidebar.dfy | src/components/AppSidebar.tsx |
| `Csv` | csv.dfy | `parseCSV` / `parseCSVLine` of src/components/TableModal.tsx |
| `TableEditor` | table.dfy | the grid, upload and rule handlers of src/components/TableModal.tsx |
| `Formatting` | formatting.dfy | src/lib/formatting.ts |
| `EditableText` | editable_text.dfy | src/components/NotionEditableText.tsx |
| `Blocks` | notion_block.dfy | src/components/NotionBlock.tsx |
| `Sections` | sections.dfy | src/components/AddSectionButton.tsx |
| `Description` | description.dfy | src/components/EditableDescription.tsx |
| `Share` | share.dfy | src/components/ShareDashboardModal.tsx |

`parseFloat` appears as a parameter `Parser = string -> Option<real>`, where `None` stands for `NaN`. `Date.now()` appears as a natural-number parameter, and the router's path as a field.

## Model

| member | source | states |
|---|---|---|
| Common.Filter | src/pages/Dashboard.tsx:316 | `Array.prototype.filter`: the survivors come from the list and pass the test, every passing element survives, and an all-passing list is kept whole |
| Common.FilterAppend | src/pages/Dashboard.tsx:316 | filtering a concatenation is concatenating the filtered parts, so the survivors keep their order |
| Common.RemoveAt | src/components/TableModal.tsx:124 | `filter((_, i) => i !== index)`: an index in range drops exactly that element, the later ones moving down by one; any other index keeps the list |
| DashboardContext.RenameIfMatch | src/contexts/DashboardContext.tsx:23-33 | no dashboard stays none; a matching id gets exactly the new name; another id is returned unchanged |
| DashboardContext.RenameKeepsOtherFields | src/contexts/DashboardContext.tsx:24-31 | a rename keeps id, description and both timestamps, and changes the name only when the id matches |
| DashboardContext.RenameIdempotent | src/contexts/DashboardContext.tsx:23-33 | renaming twice with the same arguments equals renaming once |
| DashboardContext.DashboardCell.constructor | src/contexts/DashboardContext.tsx:21 | the cell starts with no current dashboard |
| DashboardContext.DashboardCell.SetCurrent | src/contexts/DashboardContext.tsx:21 | the cell holds exactly the record set |
| DashboardContext.DashboardCell.UpdateDashboardName | src/contexts/DashboardContext.tsx:23-33 | the cell becomes the rename-if-match of its old content; an empty cell or another dashboard is untouched |
| Canvas.LoadItems | src/pages/Dashboard.tsx:134-146 | one item per backend record, in order, id and backend id both the record's id; absent or zero width/height default to 3x2 for a KPI and 6x4 otherwise; absent x/y are 0 |
| Canvas.Canvas.constructor | src/pages/Dashboard.tsx:45-47 | no components and loading, for the given dashboard id |
| Canvas.Canvas.Load | src/pages/Dashboard.tsx:97-162 | a fetched list replaces the components with the mapped items; a failed fetch keeps them and shows the error toast; loading ends either way |
| Canvas.GenerateLayouts | src/pages/Dashboard.tsx:165-183 | one entry per component in order keyed by id; KPI limits 2/2/4, other kinds 3/3/8; missing layout defaults 0,0,4,3; the same list for lg, md, sm and xs |
| Canvas.IndexOfEntry | src/pages/Dashboard.tsx:189 | the first report entry with the id, or none exactly when no entry has it |
| Canvas.IndexOfItem | src/pages/Dashboard.tsx:211 | the first component with the id, or none exactly when no component has it |
| Canvas.IndexOfItemSameIds | src/pages/Dashboard.tsx:211 | lookup by id depends only on the ids of the list |
| Canvas.ApplyLayoutChange | src/pages/Dashboard.tsx:186-204 | length and order kept; only layouts change; a component absent from the report is unchanged; a reported one takes the first matching entry's x, y, w, h |
| Canvas.LayoutChangeIdempotent | src/pages/Dashboard.tsx:186-204 | applying the same grid report twice equals applying it once |
| Canvas.Canvas.Layout | src/pages/Dashboard.tsx:165-183 | the layouts of the current components: one entry per component, in order and keyed by its id, with limits 2/2/4 for a KPI and 3/3/8 otherwise, a missing layout defaulting to 0, 0, 4, 3 and a zero width or height to 4 or 3; the same list for every breakpoint |
| Canvas.Canvas.LayoutChange | src/pages/Dashboard.tsx:186-204 | the components become the layout change of the old list |
| Canvas.PlanEntry | src/pages/Dashboard.tsx:211-237 | an entry issues one request when some component has its id and none otherwise |
| Canvas.PlannedCalls | src/pages/Dashboard.tsx:209-256 | a batch issues at most one request per entry, and exactly one per entry when every entry's component exists |
| Canvas.PlanEntryCases | src/pages/Dashboard.tsx:210-237 | an entry without a component issues nothing; one with a non-empty backend id issues one position update with its x, y, w, h; one with an absent or empty backend id issues one create |
| Canvas.PlannedCallsAppend | src/pages/Dashboard.tsx:210-256 | the requests of a batch are the requests of its parts, in order |
| Canvas.AssignBackendId | src/pages/Dashboard.tsx:240-246 | only the components with the id get the backend id; everything else is kept |
| Canvas.EntryEffect | src/pages/Dashboard.tsx:227-251 | a rejected call or an entry that is not a create leaves the list unchanged |
| Canvas.SaveEntry | src/pages/Dashboard.tsx:210-253 | the requests issued and the local effect of one entry are those of the plan and effect functions; an update rejection is reported exactly for an update entry whose call rejected |
| Canvas.AfterSave | src/pages/Dashboard.tsx:227-251 | a batch whose every call rejects leaves the component list as it was |
| Canvas.UpdateRejected | src/pages/Dashboard.tsx:213-268 | a batch whose every call resolves never counts as failed |
| Canvas.UpdateRejectedWitness | src/pages/Dashboard.tsx:213-268 | the batch counts as failed exactly when some entry is a position update whose call rejected |
| Canvas.SaveAll | src/pages/Dashboard.tsx:209-256 | running the entry callbacks over the batch issues exactly the planned requests, leaves the list of the save's effects, and reports a failure exactly when the batch counts as failed |
| Canvas.AfterSaveKeepsUnresolved | src/pages/Dashboard.tsx:227-251 | a component all of whose entries' calls rejected keeps its backend id through the save |
| Canvas.AfterSaveRecordsResolvedCreate | src/pages/Dashboard.tsx:227-251 | in a batch of any length, a resolved create records its returned id on the component carrying the entry's id, unless a later entry for that id resolves |
| Canvas.AfterSaveOnlyRecordsCreatedIds | src/pages/Dashboard.tsx:227-251 | a save changes nothing but backend ids; after it, a component's backend id is either the one it had or one returned for one of its create entries |
| Canvas.CreateThenUpdate | src/pages/Dashboard.tsx:227-246 | after a resolved create with a non-empty id, the same entry plans a position update to that id; an empty returned id leaves the entry a create |
| Canvas.RejectedCreateRetried | src/pages/Dashboard.tsx:209-256 | when every create for a component rejects, the list after the save still has that component with no usable backend id, so the next save plans the same create again |
| Canvas.Canvas.LayoutSave | src/pages/Dashboard.tsx:207-269 | the loop issues exactly the planned requests and leaves the list of the save's effects; the toast is an error exactly when some position update rejected |
| Canvas.RemoveItem | src/pages/Dashboard.tsx:316 | no survivor has the id; every other item survives; a list without the id is unchanged |
| Canvas.RemoveItemAppend | src/pages/Dashboard.tsx:316 | removal commutes with concatenation, so the order of survivors is kept |
| Canvas.Canvas.Delete | src/pages/Dashboard.tsx:298-317 | the item leaves the list whatever happens; the backend delete is sent only for a found item with a non-empty backend id, and its toast follows its outcome |
| Canvas.MaxBottom | src/pages/Dashboard.tsx:337 | the largest bottom edge (y default 0, h default 3), never below 0, and attained unless it is 0 |
| Canvas.DefaultPlacement | src/pages/Dashboard.tsx:337-343 | x is 0; y is the largest bottom edge of the existing components, or 0 when there is none (at or below every bottom, and 0 or some bottom); the size is 3x2 for a KPI and 6x4 otherwise |
| Canvas.ReplaceContent | src/pages/Dashboard.tsx:330-334 | the edited item takes the new content with its id, layout and backend id kept; all other items are unchanged |
| Canvas.Canvas.SaveComponent | src/pages/Dashboard.tsx:319-382 | editing updates the backend only with a non-empty backend id and keeps the list if that rejects; creating sends one create at the default placement and appends the item with the returned id only on success |
| Sidebar.NewDashboardName | src/components/AppSidebar.tsx:216 | `Dashboard ${dashboards.length + 1}`; no contract of its own, characterised by NewDashboardNamesDistinct and used by NewDashboard |
| Sidebar.NewDashboardNamesDistinct | src/components/AppSidebar.tsx:216 | different dashboard counts give different `Dashboard {n+1}` names |
| Sidebar.Sidebar.constructor | src/components/AppSidebar.tsx:60-68 | no dashboards, the delete modal closed with no dashboard, no rename in progress, the router's path given |
| Sidebar.Sidebar.NewDashboard | src/components/AppSidebar.tsx:213-239 | the create request is named after the current count; success appends the new dashboard, makes it current and navigates to it; failure changes nothing and shows the error toast |
| Sidebar.FindIndex | src/components/AppSidebar.tsx:242-282 | the first position holding the id, or -1 exactly when no dashboard has it |
| Sidebar.Sidebar.RequestDelete | src/components/AppSidebar.tsx:241-249 | the confirmation opens, on the listed record, only for an id present in the list |
| Sidebar.WithoutId | src/components/AppSidebar.tsx:272 | no survivor has the id, every survivor was in the list, and every other dashboard survives |
| Sidebar.WithoutIdAppend | src/components/AppSidebar.tsx:272 | removing an id from a concatenation removes it from each part, so the remaining dashboards keep their order |
| Sidebar.WithoutIdAtUniquePosition | src/components/AppSidebar.tsx:272 | removing a uniquely held id removes exactly its position and keeps the others in order |
| Sidebar.RedirectTarget | src/components/AppSidebar.tsx:283 | a target exists exactly when the remaining list is non-empty, and is always a member of it; with a position outside the list it is the first remaining dashboard |
| Sidebar.RedirectSuccessorElsePredecessor | src/components/AppSidebar.tsx:280-289 | after deleting the dashboard at a position, the redirect goes to the one that followed it, or to the one before it when it was last |
| Sidebar.Sidebar.ConfirmDelete | src/components/AppSidebar.tsx:251-306 | no dashboard in the modal does nothing; with at most one dashboard no request is sent and the refusal toast shows; otherwise the delete is sent; success removes the id and redirects only from that dashboard's route or `/`; failure keeps the list |
| Sidebar.Sidebar.CloseDeleteModal | src/components/AppSidebar.tsx:308-310 | the modal closes and forgets its dashboard; nothing else changes |
| Sidebar.FinalName | src/components/AppSidebar.tsx:314 | the name sent is never empty and never padded |
| Sidebar.FinalNameCases | src/components/AppSidebar.tsx:314 | a blank name becomes `Untitled Dashboard`, any other name its trimmed form |
| Sidebar.RenameInList | src/components/AppSidebar.tsx:317 | the list keeps its length and only entries with the id take the new name |
| Sidebar.RenameInListAgreesWithCell | src/components/AppSidebar.tsx:317-319 | the list rename and the context rename agree entry by entry |
| Sidebar.Sidebar.Rename | src/components/AppSidebar.tsx:317-319 | the list entries with the id and the matching context record take the name; nothing else changes |
| Sidebar.Sidebar.QuickRename | src/components/AppSidebar.tsx:312-328 | the final name is sent; success renames in the list and in the context; failure keeps both and shows the error's message or the default |
| Sidebar.Sidebar.StartRename | src/components/AppSidebar.tsx:330-333 | the editing id and name are set; nothing else changes |
| Sidebar.Sidebar.SaveRenameAndExit | src/components/AppSidebar.tsx:335-339 | the rename is performed with its effect on the list, the context cell and the toast, and editing always ends, whatever its outcome |
| Sidebar.Sidebar.EndEditing | src/components/AppSidebar.tsx:337-338 | the edited dashboard and the edit text are cleared and nothing else changes |
| Csv.ParseLine | src/components/TableModal.tsx:142-162 | the loop returns exactly `SplitLine`'s fields: one more than the commas outside quotes, each trimmed and free of quotes |
| Csv.RunCounts | src/components/TableModal.tsx:147-158 | the in-quotes flag is the parity of the quotes read, and each unquoted comma has closed a field |
| Csv.SplitLine | src/components/TableModal.tsx:142-162 | a line always yields at least one field |
| Csv.FieldCount | src/components/TableModal.tsx:142-162 | a line yields 1 + its unquoted commas fields, so never zero |
| Csv.FieldsClean | src/components/TableModal.tsx:147-160 | every field is trimmed and holds no quote character |
| Csv.JoinRoundTrip | src/components/TableModal.tsx:142-162 | fields without commas, quotes or surrounding blanks joined by commas split back into the same fields |
| Csv.DoubledQuoteDropped | src/components/TableModal.tsx:150-151 | for quote-free `a` and `b`, `"a""b"` yields the single field `a` followed by `b`, trimmed |
| Csv.QuotedCommaKept | src/components/TableModal.tsx:150-156 | a comma inside quotes stays in its field |
| Csv.Lines | src/components/TableModal.tsx:138 | `csvText.trim().split('\n')`; no contract of its own, characterised by SplitOn, ParseText and SingleLineHasNoRows |
| Csv.SplitOn | src/components/TableModal.tsx:138 | at least one piece, none holding the separator, and joining them back gives the text |
| Csv.ParseText | src/components/TableModal.tsx:137-171 | the first line of the trimmed text gives the headers (never empty), every later line a row, in order |
| Csv.SingleLineHasNoRows | src/components/TableModal.tsx:138-165 | a text without a newline after trimming has a header line and no rows |
| TableEditor.Blank | src/components/TableModal.tsx:129 | n empty cells |
| TableEditor.SetCell | src/components/TableModal.tsx:111-115 | exactly the addressed cell changes; shape kept |
| TableEditor.EditsKeepRectangular | src/components/TableModal.tsx:105-115 | editing one header or cell keeps every row as wide as the headers |
| TableEditor.WithEmptyColumn | src/components/TableModal.tsx:119 | each row keeps its cells and gains one empty trailing cell |
| TableEditor.WithoutColumn | src/components/TableModal.tsx:125 | each row holding the index loses exactly that cell, the cells after it moving left by one; shorter rows are kept |
| TableEditor.RemovedColumn | src/components/TableModal.tsx:122-126 | a single header blocks the removal; otherwise the index leaves the headers and every row |
| TableEditor.RemovedRow | src/components/TableModal.tsx:132-135 | a single row is kept; otherwise exactly the indexed row leaves and the rows after it move up by one; an index outside the rows removes nothing |
| TableEditor.AddColumnKeepsRectangular | src/components/TableModal.tsx:117-120 | adding a column keeps the grid rectangular |
| TableEditor.RemoveColumnKeepsRectangular | src/components/TableModal.tsx:122-126 | removing a column keeps the grid rectangular, for any index |
| TableEditor.AddRowKeepsRectangular | src/components/TableModal.tsx:128-130 | adding a row keeps the grid rectangular |
| TableEditor.RemoveRowKeepsRectangular | src/components/TableModal.tsx:132-135 | removing a row keeps the grid rectangular |
| TableEditor.AddColumnThenRemoveIt | src/components/TableModal.tsx:117-126 | on a rectangular grid, removing the column just added restores the grid |
| TableEditor.AddRowThenRemoveIt | src/components/TableModal.tsx:128-135 | with at least one row, removing the row just added restores the rows |
| TableEditor.DefaultGridIsRectangular | src/components/TableModal.tsx:40-44 | the initial grid is rectangular |
| TableEditor.TableEditor.constructor | src/components/TableModal.tsx:39-66 | empty title, the three default columns over two sample rows, no rules, the default draft |
| TableEditor.TableEditor.UpdateHeader | src/components/TableModal.tsx:105-109 | exactly that header changes |
| TableEditor.TableEditor.UpdateCell | src/components/TableModal.tsx:111-115 | exactly that cell changes |
| TableEditor.TableEditor.AddColumn | src/components/TableModal.tsx:117-120 | header `Column {n+1}` appended and one empty cell per row |
| TableEditor.TableEditor.RemoveColumn | src/components/TableModal.tsx:122-126 | the grid becomes the removed-column grid |
| TableEditor.TableEditor.AddRow | src/components/TableModal.tsx:128-130 | a row of header width appended |
| TableEditor.TableEditor.RemoveRow | src/components/TableModal.tsx:132-135 | the rows become the removed-row rows |
| TableEditor.UploadedRows | src/components/TableModal.tsx:202 | at least one row: the parsed rows, or one empty row of header width |
| TableEditor.UniformUploadIsRectangular | src/components/TableModal.tsx:190-202 | a text whose lines have equally many unquoted commas uploads as a rectangular grid |
| TableEditor.HeaderOnlyUpload | src/components/TableModal.tsx:190-202 | a single-line text uploads as its header fields over one empty row |
| TableEditor.FirstOccurrence | src/components/TableModal.tsx:206 | the first position at or after the start where the needle occurs, or none when it never does |
| TableEditor.StripCsv | src/components/TableModal.tsx:206 | only the first `.csv` is cut out; a name without one is kept |
| TableEditor.StripCsvOfPlainName | src/components/TableModal.tsx:205-207 | `name.csv` with a dot-free name gives the title `name` |
| TableEditor.IsCsvName | src/components/TableModal.tsx:177 | the case-insensitive `.csv` suffix test; no contract of its own, characterised by UpperCaseExtensionKept, StripCsvOfPlainName and Upload |
| TableEditor.UpperCaseExtensionKept | src/components/TableModal.tsx:177-206 | `name.CSV` passes the type check but keeps its extension in the title |
| TableEditor.TableEditor.LoadCsv | src/components/TableModal.tsx:187-213 | the parsed headers and uploaded rows replace the grid; a blank title takes the stripped file name; the toast reports the parsed sizes |
| TableEditor.TableEditor.Upload | src/components/TableModal.tsx:173-213 | a name not ending in `.csv` (in any case) is refused with a toast and changes nothing; any other file is loaded |
| TableEditor.ConditionOrGreater | src/components/TableModal.tsx:249 | an unset condition becomes `greater`; a set one is kept |
| TableEditor.DraftRule | src/components/TableModal.tsx:243-255 | a rule exists exactly when the draft has a non-empty value and a column, with the draft's fields, the given id and weight defaulting to normal |
| TableEditor.FirstColumnAccepted | src/components/TableModal.tsx:244 | column 0 does not block a rule |
| TableEditor.RuleIdsDistinct | src/components/TableModal.tsx:247 | rules created at different times get different ids |
| TableEditor.WithoutRule | src/components/TableModal.tsx:274 | exactly the rules with the id leave |
| TableEditor.WithoutRuleAppend | src/components/TableModal.tsx:274 | removing a rule id from a concatenation removes it from each part, so the surviving rules keep their order and with it the first matching rule |
| TableEditor.AddRuleThenRemoveIt | src/components/TableModal.tsx:243-276 | removing a freshly added rule by its unique id gives back the rules before it |
| TableEditor.TableEditor.EditDraft | src/components/TableModal.tsx:60-66 | the form replaces the draft |
| TableEditor.TableEditor.AddConditionalRule | src/components/TableModal.tsx:243-269 | an acceptable draft appends its rule and resets the draft; otherwise nothing changes |
| TableEditor.TableEditor.RemoveConditionalRule | src/components/TableModal.tsx:271-276 | the rules become those without the id |
| Formatting.SecondValue | src/lib/formatting.ts:117 | `rule.value2 ? parseFloat(rule.value2) : 0`; no contract of its own, characterised by BetweenMissingSecondIsZero |
| Formatting.Evaluate | src/lib/formatting.ts:114-138 | `evaluateConditionalRule`; no contract of its own, characterised case by case by OrderNeedsNumbers, EqualFallsBackToText, EqualIgnoresCase, ContainsIgnoresParsing, ContainsInfix, BetweenInclusive, BetweenSymmetric, BetweenMissingSecondIsZero and UnknownConditionNeverMatches |
| Formatting.OrderNeedsNumbers | src/lib/formatting.ts:120-123 | `greater`/`less` hold exactly when both sides parse and compare strictly |
| Formatting.EqualFallsBackToText | src/lib/formatting.ts:124-128 | `equal` is numeric equality when both parse, and case-insensitive text equality otherwise |
| Formatting.EqualIgnoresCase | src/lib/formatting.ts:128 | texts differing only in ASCII case are equal under `equal` when they do not both parse |
| Formatting.ContainsIgnoresParsing | src/lib/formatting.ts:129-130 | `contains` never consults the parser |
| Formatting.ContainsInfix | src/lib/formatting.ts:130 | a cell holding the rule's value as an infix satisfies `contains` |
| Formatting.BetweenInclusive | src/lib/formatting.ts:131-134 | both bounds themselves satisfy `between` |
| Formatting.BetweenSymmetric | src/lib/formatting.ts:131-134 | swapping the two values does not change `between` |
| Formatting.BetweenMissingSecondIsZero | src/lib/formatting.ts:117 | an absent second value acts as 0, so the range runs from 0 to the first value |
| Formatting.UnknownConditionNeverMatches | src/lib/formatting.ts:135-136 | an unknown condition is false |
| Formatting.RuleStyle | src/lib/formatting.ts:150-158 | a matching rule sets only the properties it defines, with its own values |
| Formatting.GetCellStyle | src/lib/formatting.ts:141-165 | with no applicable rule the style is empty; otherwise it is the style of the first rule of the column that matches |
| EditableText.BlurSave | src/components/NotionEditableText.tsx:82-86 | a save happens exactly when the trimmed text differs from the value, and carries that trimmed text |
| EditableText.BlurSaveSettles | src/components/NotionEditableText.tsx:38-86 | once the saved text comes back as the value, blurring again saves nothing |
| EditableText.PaddingAloneIsNotSaved | src/components/NotionEditableText.tsx:82 | adding blanks around an unchanged value saves nothing |
| EditableText.BlurOf | src/components/NotionEditableText.tsx:80-91 | the save decision, a throwing save leaving the saving flag set and skipping the empty notification, and the notification for an empty trimmed text |
| EditableText.EmptyBlurWithoutSave | src/components/NotionEditableText.tsx:88-91 | clearing an already empty value notifies without saving |
| EditableText.Accepts | src/components/NotionEditableText.tsx:110 | `!(maxLength && newValue.length > maxLength)`; no contract of its own, characterised by AcceptsIffWithinCap and AstralCharOverCapOne |
| EditableText.Utf16Length | src/components/NotionEditableText.tsx:110 | `.length` counts UTF-16 code units: between one and two per character, exactly one per character when all lie in the Basic Multilingual Plane |
| EditableText.AcceptsIffWithinCap | src/components/NotionEditableText.tsx:110 | with a positive cap, a text is accepted exactly when its UTF-16 length fits; more characters than the cap are always refused |
| EditableText.AstralCharOverCapOne | src/components/NotionEditableText.tsx:110 | a single character outside the Basic Multilingual Plane is refused by a cap of one |
| EditableText.NotionEditableText.constructor | src/components/NotionEditableText.tsx:31-33 | not editing, not saving, edit text equal to the value |
| EditableText.NotionEditableText.View | src/components/NotionEditableText.tsx:124-205 | nothing is rendered exactly when not editing, empty, placeholder hidden and not saving; an editor exactly while editing; the saving notice while saving; otherwise the value or the placeholder |
| EditableText.NotionEditableText.PropChange | src/components/NotionEditableText.tsx:38-40 | a new value prop resets the edit text |
| EditableText.NotionEditableText.Click | src/components/NotionEditableText.tsx:67-70 | editing starts unless disabled or already editing |
| EditableText.NotionEditableText.Blur | src/components/NotionEditableText.tsx:72-92 | no-op when not editing; otherwise editing ends and the save and the empty notification follow the blur decision |
| EditableText.NotionEditableText.KeyDown | src/components/NotionEditableText.tsx:94-106 | single-line Enter has exactly the blur's effect (saved text, empty notice, saving flag); Escape restores the value and ends editing; other keys change nothing |
| EditableText.NotionEditableText.Change | src/components/NotionEditableText.tsx:108-112 | a text over a positive cap is refused and the edit text stays |
| Blocks.IsMultiline | src/components/NotionBlock.tsx:51 | the description and text kinds are multi-line; no contract of its own, characterised by CapFollowsKind and EnterCalls |
| Blocks.MaxLength | src/components/NotionBlock.tsx:201-211 | `getMaxLength`; no contract of its own, characterised by CapFollowsKind |
| Blocks.CapFollowsKind | src/components/NotionBlock.tsx:201-211 | the single-line kinds have cap 100; the multi-line ones at least 500; no cap exceeds 1000 |
| Blocks.Placeholder | src/components/NotionBlock.tsx:159-168 | a non-empty placeholder prop wins; the result is never empty |
| Blocks.DefaultPlaceholdersDistinct | src/components/NotionBlock.tsx:161-165 | each kind has its own default placeholder |
| Blocks.BlurCalls | src/components/NotionBlock.tsx:100-111 | exactly the trimmed save when the text changed, followed by exactly one delete when the trimmed text is empty, `onDelete` is given and no save threw; nothing else |
| Blocks.EnterCalls | src/components/NotionBlock.tsx:115-129 | exactly the trimmed save when the text changed, followed by exactly one `onEnter` for a single-line kind with the callback; nothing else |
| Blocks.NotionBlock.constructor | src/components/NotionBlock.tsx:43-63 | a block mounts editing exactly when its value is empty |
| Blocks.NotionBlock.PropChange | src/components/NotionBlock.tsx:54-56 | a new value prop resets the edit text |
| Blocks.NotionBlock.Click | src/components/NotionBlock.tsx:88-91 | editing starts unless disabled or already editing |
| Blocks.NotionBlock.Blur | src/components/NotionBlock.tsx:93-112 | no-op when not editing; otherwise editing ends and the calls are the blur calls |
| Blocks.NotionBlock.KeyDown | src/components/NotionBlock.tsx:114-137 | plain Enter makes the Enter calls and keeps editing; Escape reverts and ends editing; Backspace in an empty block deletes it |
| Blocks.NotionBlock.Change | src/components/NotionBlock.tsx:139-141 | the edit text is replaced |
| Blocks.NotionBlock.ChangeType | src/components/NotionBlock.tsx:143-147 | the type change is forwarded only when the callback exists |
| Sections.AddSectionButton.constructor | src/components/AddSectionButton.tsx:17 | the options row starts closed |
| Sections.AddSectionButton.Open | src/components/AddSectionButton.tsx:94 | the options row opens |
| Sections.AddSectionButton.Add | src/components/AddSectionButton.tsx:19-37 | an empty section of the chosen kind is added and the options close |
| Sections.AddSectionButton.Cancel | src/components/AddSectionButton.tsx:78-84 | the options close |
| Sections.HandleUpdate | src/components/AddSectionButton.tsx:112-118 | a blank title deletes the section; any other title updates it trimmed |
| Sections.HandleUpdateDeletesBlank | src/components/AddSectionButton.tsx:113-115 | exactly the all-blank titles delete |
| Sections.HandleUpdateOfTrimmed | src/components/AddSectionButton.tsx:117 | an already trimmed title passes through unchanged |
| Sections.Forward | src/components/AddSectionButton.tsx:120-139 | a change goes through the update handler; a delete always passes on; type changes and Enter only with their callbacks; every call is about this section |
| Sections.ForwardAll | src/components/AddSectionButton.tsx:132-141 | forwarded calls are all about this section and never add one |
| Sections.ClearedBlurCalls | src/components/NotionBlock.tsx:100-111 | blurring a titled block whose text is all blank makes the empty save and then the delete |
| Sections.ForwardEmptySaveAndDelete | src/components/AddSectionButton.tsx:112-138 | the empty save and the delete both become deletions of the section |
| Sections.ClearAndBlurDeletesTwice | src/components/AddSectionButton.tsx:112-138 | clearing a titled section and blurring it deletes the section twice |
| Sections.EditableSection.constructor | src/components/AddSectionButton.tsx:132-141 | the block gets the title and kind and all three callbacks |
| Sections.EditableSection.Blur | src/components/AddSectionButton.tsx:132-141 | a blur's section calls are the forwarded blur calls of the block, and the block's saving flag is left as the block's own blur leaves it |
| Description.SavedDescription | src/components/EditableDescription.tsx:56 | nothing exactly for a blank text, otherwise the trimmed text |
| Description.BlankRemovesDescription | src/components/EditableDescription.tsx:56-73 | exactly an all-blank text removes the description |
| Description.SavedDescriptionStable | src/components/EditableDescription.tsx:56 | saving the saved description again stores the same one |
| Description.ContextUpdate | src/components/EditableDescription.tsx:60-65 | the context is updated exactly when it shows the same dashboard, and only its description changes |
| Description.EditableDescription.constructor | src/components/EditableDescription.tsx:20-22 | not editing, not loading, the edit text equal to the description |
| Description.EditableDescription.PropChange | src/components/EditableDescription.tsx:35-37 | a new description prop resets the edit text |
| Description.EditableDescription.Edit | src/components/EditableDescription.tsx:104 | the edit text takes the typed text and nothing else changes |
| Description.EditableDescription.StartEdit | src/components/EditableDescription.tsx:39-42 | editing starts from the description |
| Description.EditableDescription.Cancel | src/components/EditableDescription.tsx:44-47 | editing ends with the description restored |
| Description.EditableDescription.BeginSave | src/components/EditableDescription.tsx:49-57 | a save in flight blocks a second one; otherwise loading starts and the trimmed text (or nothing) is sent |
| Description.EditableDescription.FinishSave | src/components/EditableDescription.tsx:59-87 | success updates the matching context and ends editing; failure reverts the edit text; loading always ends; the toast follows |
| Description.EditableDescription.KeyDown | src/components/EditableDescription.tsx:90-96 | Ctrl+Enter starts a save and keeps the edit text and the editing flag; Escape cancels and keeps the loading flag; other keys change nothing |
| Share.MatchesEmailRegex | src/components/ShareDashboardModal.tsx:36-39 | `validateEmail`'s regular expression; no contract of its own, characterised by EmailRegexCharacterized, RegexImpliesWellFormed, WellFormedImpliesRegex and WhitespaceRejected |
| Share.EmailRegexCharacterized | src/components/ShareDashboardModal.tsx:36-39 | the regular expression accepts exactly the addresses with no white space, one `@` with text before it, and a dot inside the domain |
| Share.RegexImpliesWellFormed | src/components/ShareDashboardModal.tsx:37 | an accepted address is well formed |
| Share.WellFormedImpliesRegex | src/components/ShareDashboardModal.tsx:37 | a well-formed address is accepted |
| Share.WhitespaceRejected | src/components/ShareDashboardModal.tsx:37 | any white space refuses the address |
| Share.AcceptedIsTrimmed | src/components/ShareDashboardModal.tsx:37-57 | an accepted address is non-empty and its own trimmed form |
| Share.Validate | src/components/ShareDashboardModal.tsx:42-50 | the empty message exactly for a blank address, the invalid message exactly for a non-blank address the regex refuses, nothing otherwise |
| Share.PaddedAddressRefused | src/components/ShareDashboardModal.tsx:42-50 | an address with blanks that is not all blank is refused as invalid |
| Share.AcceptedAddressSentAsTyped | src/components/ShareDashboardModal.tsx:47-57 | an address that passes both checks is sent exactly as typed |
| Share.ShareErrorMessage | src/components/ShareDashboardModal.tsx:76-83 | 404 and 409 have their texts; otherwise the error's message or the default; never empty |
| Share.StatusBeatsMessage | src/components/ShareDashboardModal.tsx:77-80 | for 404 and 409 the error's message does not matter |
| Share.ShareDialog.constructor | src/components/ShareDashboardModal.tsx:30-34 | empty address, error and success lines, view permission, not loading |
| Share.ShareDialog.SetEmail | src/components/ShareDashboardModal.tsx:30 | the address field takes the text |
| Share.ShareDialog.SetPermission | src/components/ShareDashboardModal.tsx:34 | the permission takes the choice |
| Share.ShareStep | src/components/ShareDashboardModal.tsx:41-87 | a refused address sets its message and sends nothing; otherwise the address is sent trimmed with the permission; success resets the form and names the address; failure keeps the input and shows the mapped message |
| Share.SharedAddressNamed | src/components/ShareDashboardModal.tsx:57-66 | after a successful share the form is reset and the success line names exactly the address that was sent |
| Share.RejectionKeepsInput | src/components/ShareDashboardModal.tsx:74-86 | a refused or rejected share keeps the typed address and permission and always shows an error |
| Share.ShareDialog.Share | src/components/ShareDashboardModal.tsx:41-87 | the form and the request follow the share step; loading is off after a sent request and untouched by a refusal |
| Share.ShareDialog.Close | src/components/ShareDashboardModal.tsx:89-95 | the form is reset |
| Text.IsWhitespace | src/components/ShareDashboardModal.tsx:37 | the ECMAScript white space and line terminators that `trim` and `\s` use; no contract of its own, characterised by TrimEmptyIffBlank and WhitespaceRejected |
| Text.Trim | src/components/AppSidebar.tsx:314 | `String.prototype.trim`: the result has no blank at either end; characterised by TrimIdentity, TrimIdempotent, TrimEmptyIffBlank, TrimPadded and TrimInfix |
| Text.ToLower | src/lib/formatting.ts:128 | `toLowerCase` on ASCII: the same length, each upper-case letter lowered and every other character kept |
| Text.Contains | src/lib/formatting.ts:130 | `includes`; no contract of its own, characterised by ContainsInfix |
| Text.NatToString | src/components/TableModal.tsx:247 | number-to-string on naturals: non-empty decimal digits with no leading zero; characterised by NatToStringRoundTrip and NatToStringInjective |
| Text.TrimIdentity | src/components/NotionEditableText.tsx:82 | a text is its own trimmed form exactly when it has no blank at either end |
| Text.TrimIdempotent | src/components/NotionEditableText.tsx:82 | trimming twice equals trimming once |
| Text.TrimEmptyIffBlank | src/components/AddSectionButton.tsx:113 | the trimmed text is empty exactly when the text is all blank |
| Text.TrimPadded | src/components/NotionBlock.tsx:102 | blanks around a trimmed text are trimmed away |
| Text.TrimInfix | src/components/NotionEditableText.tsx:82 | the trimmed text is a contiguous part of the text with only white space cut from either end |
| Text.NatToStringRoundTrip | src/components/AppSidebar.tsx:216 | reading back the digits of a rendered number gives the number |
| Text.NatToStringInjective | src/components/TableModal.tsx:247 | distinct numbers render as distinct strings |

## Left out

- HTTP client: the calls are not executed; each awaited call is a parameter saying how it settles, and requests are returned values.
- Autosave timers in the inline editors (`setTimeout` after each keystroke) are time-driven and not modelled; saving is modelled through blur and Enter only.
- Delayed effects are left out: the share dialog's two-second close, the clearing of its success message, and the focus and select effects.
- Window events and globals are left out. These are `reloadSharedDashboards`, `shared-dashboards-changed`, `dashboards-changed`, `refreshDashboards`, and the storage listener with its token wait in the sidebar's loader.
- Route-dependent loading (shared and public links, dashboard info fetch) in `loadDashboard`: only the component list it receives and the error toast are modelled.
- The grid library's packing and breakpoints: its output enters as a list of `(i, x, y, w, h)` entries.
- `Promise.all` in `handleLayoutSave` is modelled as a sequential loop in report order. Results are applied in that order, and no interleaving of concurrent saves is modelled; `RejectedCreateRetried` states what a later save sees after a create was lost.
- `parseFloat` and JavaScript number comparison: a parser parameter yielding `real` or `NaN`.
- `toLowerCase` beyond ASCII letters.
- FileReader, its `onerror` toast and the file input reset are not modelled.
- The upload's "Empty file" branch is unreachable, since the parsed headers are never empty (`Csv.ParseText`).
- The upload's "Error parsing file" catch is unreachable, because the parser does not throw.
- The table modal's `handleSave` and the `initialData` effect are not part of this model. Neither are its formatting settings other than the conditional rules, nor the chart and KPI modals.
- Rendering beyond the null-render rule of the inline editor, the block's menu (including its Delete item), and the sidebar's menus are left out.
- Authentication, routing and the welcome dashboard.
- TableEditor.TableEditor.UpdateHeader: requires an index inside the headers. The page only passes existing indices; an out-of-range write, which JavaScript would turn into a sparse array, is not modelled.
- TableEditor.TableEditor.UpdateCell: requires an existing cell. The source also writes into the row it shares with the previous state, which aliasing-free sequence values do not capture.
- Blocks.NotionBlock.Change: accepts any text; the input element's `maxlength` attribute (`Blocks.MaxLength`, which the browser also counts in UTF-16 code units) is enforced by the browser and not by the handler.
- Props other than `value` or `description` (callbacks, placeholder, cap, disabled flag) are fixed for the life of a component instance.
- A blur that the browser may fire after Escape or on unmount is a separate `Blur` call, not implied by `KeyDown`.
