# Landscaping back office: the rules inside its screens

This project models the small deterministic rules in the event handlers of a landscaping company's back-office screens, and proves properties of them in Dafny. It covers:

- the sales-pipeline board: moving leads between stages, deleting leads, stage columns and the WhatsApp contact link;
- stock movements and the stock dashboard;
- the service-order lifecycle and its checklists;
- quote line items and totals;
- the notification inbox;
- the marketing carousels;
- the equipment, contracts and financial lists;
- the sidebar;
- the services catalogue switch.

Every backend round trip is a `success: bool` parameter, or, where the screen reloads, an `Option` standing for the rows the query returns. Other effects are parameters too:

- current timestamps and generated ids;
- day differences between dates (`daysUntil: string -> int`);
- the month-range test;
- date formatting;
- `encodeURIComponent`.

Money and quantities are exact Dafny `real`s. Stock counts are `int`s.

Modules, one per screen plus three shared ones:

- **Shared modules:**
  - `Optional`: the `Option` type.
  - `Seqs`: `filter`, selective `map` and `reduce`-sum, with their order and membership facts.
  - `Text`: the JavaScript string semantics the screens use:
    - `toLowerCase`, `toUpperCase` of one character;
    - `includes`, `startsWith`;
    - `replace(/\D/g, "")`;
    - `Number.parseInt`;
    - `String(n)`.
- **Sales pipeline and stock:** `Kanban`, `Inventory`, `Movements`.
- **Orders, quotes and catalogue:** `ServiceOrders`, `Quotes`, `Catalog`.
- **Inbox and carousels:** `Notifications`, `Carousel`.
- **Lists and navigation:** `Equipment`, `Contracts`, `Financial`, `Sidebar`.

## Model

| member | source | states |
|---|---|---|
| Kanban.Column | components/manager/kanban-board.tsx:128-130 | a stage's column holds exactly the leads tagged with that stage, as an order-preserving subsequence of the loaded leads |
| Kanban.ExactlyOneColumn | components/manager/kanban-board.tsx:128-130 | with distinct stage ids, a lead whose stage is loaded appears in exactly one column |
| Kanban.UnknownStageHidden | components/manager/kanban-board.tsx:128-130 | a lead whose stage id matches no loaded stage appears in no column |
| Kanban.DragThenDrop | components/manager/kanban-board.tsx:57-90 | dragging a loaded lead and dropping it on another stage, with the backend accepting, sends one move request for that lead and stage, rewrites exactly that lead's stage, keeps every other lead and the length, and ends with no drag in progress |
| Kanban.FindStage | components/manager/kanban-board.tsx:76 | `find` returns the first stage with the id, and nothing exactly when no stage has it |
| Kanban.TargetName | components/manager/kanban-board.tsx:76 | the toast names the target stage, or "Nova etapa" when the stage is unknown or its name is empty; never empty |
| Kanban.Drop | components/manager/kanban-board.tsx:65-90 | no dragged lead or same-stage drop sends nothing and keeps the leads; otherwise one update is sent; on success only the dragged lead's stage changes, with the success toast; on failure the leads stay, with the error toast; the drag is cleared in every case |
| Kanban.MoveChangesOnlyTheDraggedColumn | components/manager/kanban-board.tsx:72-75 | after a successful move the dragged lead is in the target column and has left its old one; every other lead keeps its column; length and order are kept |
| Kanban.DropScenario | components/manager/kanban-board.tsx:65-90 | the concrete case: lead "Jardim A" dropped from "Novo" onto "Visita Agendada" lands there, with the toast naming that stage |
| Kanban.Without | components/manager/kanban-board.tsx:99 | the leads with another id, in their original order |
| Kanban.Delete | components/manager/kanban-board.tsx:92-111 | a cancelled confirmation sends nothing and keeps the list; a successful delete keeps exactly the other leads; a failed one keeps the list; the matching toast in each case |
| Kanban.DeleteClearsEveryColumn | components/manager/kanban-board.tsx:98-99 | after a successful delete each column is the old column without that lead |
| Kanban.WhatsAppMessage | components/manager/kanban-board.tsx:113-119 | "Visita Agendada" and "Orçamento Enviado" get their own templates and every other stage name the generic one; all start with the greeting, and all but the visit template contain the lead title |
| Kanban.ContactPhone | components/manager/kanban-board.tsx:122 | there is a number to call exactly when the lead has a client with a non-empty phone |
| Kanban.PhoneSegment | components/manager/kanban-board.tsx:123-125 | the link's phone part is "55" followed by exactly the phone's digits |
| Kanban.FormattedPhoneSegment | components/manager/kanban-board.tsx:123 | a phone written "(DDD) NNNNN-NNNN" yields "55" followed by the three digit groups |
| Kanban.PhoneSegmentExample | components/manager/kanban-board.tsx:123 | "(37) 99999-0000" yields "5537999990000" |
| Kanban.LinkParsesBack | components/manager/kanban-board.tsx:125 | a wa.me link built from a digit string and a text parses back to that digit string and that text |
| Kanban.WhatsAppLink | components/manager/kanban-board.tsx:121-126 | no link exactly when the lead has no phone; otherwise a link starting "https://wa.me/55" from which the phone segment and the encoded message parse back |
| Movements.KindSelectedBy | components/manager/inventory-movements.tsx:60-62 | each narrowing filter value selects one of the three recognised kinds |
| Movements.FilterMovements | components/manager/inventory-movements.tsx:58-64 | "all" or an unrecognised filter keeps every movement; "entrada", "saida" and "ajuste" keep exactly entry, exit and adjustment; the result keeps the loaded order |
| Movements.KeepsExactly | components/manager/inventory-movements.tsx:58-64 | a narrowing filter keeps a kind exactly when it is the filter's kind; any other filter keeps every kind |
| Movements.LossShownOnlyUnfiltered | components/manager/inventory-movements.tsx:58-64 | a loss, or any unrecognised kind, is shown exactly when the filter does not narrow |
| Movements.Badge | components/manager/inventory-movements.tsx:79-90 | the badge is "Perda" exactly for kinds other than entry, exit and adjustment |
| Movements.QuantitySign | components/manager/inventory-movements.tsx:162 | "+" exactly for an entry, "-" exactly for an exit, nothing otherwise |
| Movements.QuantityText | components/manager/inventory-movements.tsx:161-163 | the quantity cell starts with the kind's sign; `parseInt` of what follows the sign gives back the quantity; it ends with a space and the item's unit, which is empty when the item is missing |
| Movements.NumberAndUnit | components/manager/inventory-movements.tsx:163 | `parseInt` reads the quantity back from the text after the sign, which ends with a space and the unit |
| Movements.FilterBadgeSignAgree | components/manager/inventory-movements.tsx:79-90 | under a narrowing filter every kept movement carries that filter's badge; "+" goes with "Entrada" and "-" with "Saída" |
| Inventory.DialogQuantity | components/manager/inventory-dashboard.tsx:81-84 | a quantity is accepted exactly when the text is non-empty and `parseInt` gives a positive number, and then it is that number |
| Inventory.DialogQuantityOfNumber | components/manager/inventory-dashboard.tsx:83 | typing a positive integer gives that quantity |
| Inventory.NewStock | components/manager/inventory-dashboard.tsx:86-89 | an entry adds the quantity; an exit subtracts it but never goes below zero, and reaches zero when the quantity covers the stock |
| Inventory.HandleMovement | components/manager/inventory-dashboard.tsx:80-109 | nothing is written without an item or a valid quantity; otherwise the new stock is sent; only when the stock update succeeds is the movement insert sent (exactly the columns and values the code names), the list reloaded, the dialog closed and its quantity and notes fields emptied, whatever the insert's own result; on a refused update the fields keep what was typed; stock that is not negative stays not negative |
| Inventory.ConfirmAfterConfirm | components/manager/inventory-dashboard.tsx:80-109 | since reopening the dialog leaves its fields alone, a confirm after an accepted one writes nothing until a quantity is typed again, and a confirm after a refused one repeats it |
| Inventory.HandleMovementCorrected | components/manager/inventory-dashboard.tsx:80-109 | the same outcome as the coded confirmation except the row sent, which the movement table takes and from which the history page reads the recorded kind, the quantity and the new stock |
| Inventory.RecordedKind | components/manager/inventory-dashboard.tsx:99 | the recorded kind is one the history page recognises |
| Inventory.DashboardKindMisread | components/manager/inventory-dashboard.tsx:99 | a movement written with the kind the code uses is badged "Perda", has no sign, and is hidden by its own filter |
| Inventory.RecordedKindReadBack | components/manager/inventory-dashboard.tsx:96-102 | a movement recorded as entry or exit appears under the dialog's filter name with the matching badge and sign |
| Inventory.DashboardInsertLost | components/manager/inventory-dashboard.tsx:96-102 | the coded insert names columns the movement table lacks and omits the required previous and new quantities, so the table cannot take it; read as a history row it has no kind, so it is badged "Perda", unsigned, and hidden by its own filter |
| Inventory.HistoryInsertReadBack | lib/types/database.ts:225-236 | the intended insert carries only table columns and every required one, and the history page reads back the item, the kind under the dialog's filter with its badge and sign, the quantity and the notes |
| Inventory.StockFiltersPartition | components/manager/inventory-dashboard.tsx:117-121 | with stock and minimum not negative, the "out", "low" and "ok" filters each match exactly one badge, so they are disjoint and cover every item; the exit button is disabled exactly for "Sem Estoque" |
| Inventory.LowBadgeRange | components/manager/inventory-dashboard.tsx:128-136 | "Sem Estoque" iff stock is 0, "Estoque Baixo" iff 0 < stock ≤ min, "Normal" otherwise |
| Inventory.ComputeStats | components/manager/inventory-dashboard.tsx:65-74 | total is the item count; the low and out counts are the filter counts and add up to at most the total; the stock value is not negative when no term is negative |
| Inventory.TotalValueNonNegative | components/manager/inventory-dashboard.tsx:67 | the sum of stock × unit cost is not negative when every stock and cost is not negative |
| Inventory.StatsMatchBadges | components/manager/inventory-dashboard.tsx:65-66 | the low and out cards count exactly the items badged "Estoque Baixo" and "Sem Estoque" |
| Inventory.TotalValueOfAppend | components/manager/inventory-dashboard.tsx:67 | no items have total value 0, and one more item adds its stock × unit cost to the total value |
| Inventory.FilteredItems | components/manager/inventory-dashboard.tsx:111-124 | the rows are the items passing search, category and stock filters, in order |
| Inventory.FiltersOffKeepAll | components/manager/inventory-dashboard.tsx:111-124 | empty search with "all" category and stock shows every item |
| Inventory.SearchIgnoresCase | components/manager/inventory-dashboard.tsx:112-113 | lower-casing the search does not change which items match |
| Inventory.Categories | components/manager/inventory-dashboard.tsx:126 | the category options are distinct, are exactly the non-empty categories present, and are listed in the order of each category's first item |
| Inventory.CategoriesFrom | components/manager/inventory-dashboard.tsx:126 | the scan keeps the options collected so far as a prefix, then adds each new non-empty category once, in the order of its first item, and nothing else |
| Inventory.FirstIndex | components/manager/inventory-dashboard.tsx:126 | the index of the first item in a category, or the list length when none is |
| Inventory.CollectOrder | components/manager/inventory-dashboard.tsx:126 | one step of the scan keeps the new options in first-item order |
| ServiceOrders.StatusLabel | components/manager/service-order-detail.tsx:30-35 | each status has its own badge label |
| ServiceOrders.OfferedIsTransition | components/manager/service-order-detail.tsx:215-245 | a button is shown exactly when its target status is a lifecycle transition from the current one (start from scheduled, finish from in progress, cancel from either), and none is shown once completed or cancelled |
| ServiceOrders.StatusUpdates | components/manager/service-order-detail.tsx:78-83 | moving to in progress stamps the start, moving to completed stamps the end, any other status stamps neither |
| ServiceOrders.UpdateStatus | components/manager/service-order-detail.tsx:74-91 | the local order changes only when the update succeeds, and then only by the status and the stamp |
| ServiceOrders.ApplyClick | components/manager/service-order-detail.tsx:213-245 | a click on a button that is not shown changes nothing |
| ServiceOrders.RunKeepsStamps | components/manager/service-order-detail.tsx:74-91 | any click sequence, each accepted or refused, keeps an in-progress order stamped with its start and a completed one with both stamps, and only moves forward along the lifecycle |
| ServiceOrders.FinishedIsFinal | components/manager/service-order-detail.tsx:215-245 | no click sequence changes a completed or cancelled order |
| ServiceOrders.InitialChecklist | components/manager/service-order-detail.tsx:58-71 | a stored checklist, even an empty one, wins; only a missing one gives the defaults |
| ServiceOrders.DefaultChecklists | components/manager/service-order-detail.tsx:58-71 | with nothing stored, before and after each start with three open items |
| ServiceOrders.InitialNotes | components/manager/service-order-detail.tsx:72 | the notes field starts with the stored notes, or empty |
| ServiceOrders.Toggle | components/manager/service-order-detail.tsx:112-120 | `completed` flips exactly on the entries with the id; ids, texts and length are kept |
| ServiceOrders.ToggleTwice | components/manager/service-order-detail.tsx:114-118 | toggling an item twice restores the list |
| ServiceOrders.ToggleAbsent | components/manager/service-order-detail.tsx:115 | toggling an id that is not listed changes nothing |
| ServiceOrders.ToggleItem | components/manager/service-order-detail.tsx:112-120 | only the addressed list (before or after) changes |
| ServiceOrders.SaveChecklists | components/manager/service-order-detail.tsx:93-110 | the order takes both checklists and the notes only when the save succeeds; status and stamps are kept |
| ServiceOrders.SaveThenReload | components/manager/service-order-detail.tsx:106-107 | after a successful save, the order opens again with exactly the saved draft |
| Catalog.ToggleActive | components/manager/services-catalog.tsx:45-52 | the update sent is the negated flag; on success exactly the services with that id flip their flag; on error the list stays; length and order are kept |
| Catalog.ToggleTwice | components/manager/services-catalog.tsx:50 | two successful flips restore the list |
| Catalog.ToggleShowsSent | components/manager/services-catalog.tsx:47-50 | for the listed row, the flag shown after success is the flag that was sent |
| Catalog.Find | components/manager/quote-form.tsx:78 | `find` returns the first service with the id, and nothing exactly when none has it |
| Quotes.AddItem | components/manager/quote-form.tsx:69-71 | exactly one blank line (quantity 1, price 0, total 0) is appended after the unchanged lines |
| Quotes.RemoveItem | components/manager/quote-form.tsx:95-97 | exactly the line at the index goes and the rest keep their order; an index outside the list removes nothing |
| Quotes.RemoveItemMultiset | components/manager/quote-form.tsx:96 | removal takes exactly that line out of the multiset of lines |
| Quotes.RemoveUndoesAdd | components/manager/quote-form.tsx:69-97 | removing the line just added restores the lines |
| Quotes.EditItem | components/manager/quote-form.tsx:77-90 | a known service copies its id, name and price and recomputes the total from the quantity; an unknown one changes nothing; the empty service id is only stored; a quantity or price edit recomputes the total; a description edit leaves it |
| Quotes.UpdateItem | components/manager/quote-form.tsx:73-93 | only the line at the index changes |
| Quotes.EditKeepsConsistent | components/manager/quote-form.tsx:77-90 | every edit keeps total = quantity × unit price, and a quantity or price edit re-establishes it |
| Quotes.StepKeepsConsistent | components/manager/quote-form.tsx:69-97 | one add, remove or edit keeps every line's total equal to quantity × unit price |
| Quotes.RunKeepsConsistent | components/manager/quote-form.tsx:69-97 | any sequence of adds, removes and edits keeps every line's total equal to quantity × unit price |
| Quotes.Total | components/manager/quote-form.tsx:99-101 | the total is the subtotal less the percentage discount, and equals the subtotal at 0 % |
| Quotes.TotalBounds | components/manager/quote-form.tsx:99-101 | with non-negative line totals and a discount from 0 to 100, 0 ≤ total ≤ subtotal |
| Quotes.AddKeepsSubtotal | components/manager/quote-form.tsx:99 | a blank line adds nothing to the subtotal |
| Quotes.RemoveSubtractsLine | components/manager/quote-form.tsx:95-99 | removing a line takes exactly its total off the subtotal |
| Notifications.StatusLabel | lib/hooks/use-notifications.ts:64-69 | each status has its own label in the update notification |
| Notifications.OnInsert | lib/hooks/use-notifications.ts:38-50 | a new order prepends exactly one unread service-order notification linking to it; the previous list follows unchanged |
| Notifications.OnUpdate | lib/hooks/use-notifications.ts:60-80 | an update prepends one unread notification "Status: <label of the new status>" linking to the order exactly when the status changed, and otherwise leaves the list unchanged |
| Notifications.UnreadCount | lib/hooks/use-notifications.ts:95 | the count is at most the list length, and is 0 exactly when every notification is read |
| Notifications.PrependCountsUnread | lib/hooks/use-notifications.ts:50 | prepending adds one to the unread count for an unread notification and nothing for a read one |
| Notifications.MarkAsRead | lib/hooks/use-notifications.ts:97-98 | exactly the entries with the id become read; everything else is unchanged |
| Notifications.MarkAsReadIdempotent | lib/hooks/use-notifications.ts:97-98 | marking the same id twice is marking it once |
| Notifications.MarkAsReadUnread | lib/hooks/use-notifications.ts:95-98 | afterwards the unread count is the number of previously unread notifications with another id, so it never rises |
| Notifications.MarkAllAsRead | lib/hooks/use-notifications.ts:100 | length and contents are kept with every entry read, so the unread count is 0 |
| Notifications.HandleUnread | lib/hooks/use-notifications.ts:38-102 | one event raises the unread count by at most the notifications it prepends, and by exactly that for a realtime insert or update |
| Notifications.RunUnread | lib/hooks/use-notifications.ts:38-102 | over any event run the unread count grows by at most the notifications prepended, and by exactly that when only realtime events arrive |
| Notifications.ClearThenRun | lib/hooks/use-notifications.ts:102 | after clearing, the inbox is what the later events alone build, and its unread count is at most (exactly, for realtime events only) the notifications prepended since |
| Carousel.JsRem | components/sections/portfolio-section.tsx:17 | JavaScript's `%`: for a non-negative dividend the Euclidean remainder, in [0, n); for a negative one the negated remainder of its magnitude, in (−n, 0] |
| Carousel.Next | components/sections/portfolio-section.tsx:16-18 | next stays in [0, n) and wraps from the last slide to the first (the testimonials use the same arithmetic, testimonials-section.tsx:10-12) |
| Carousel.Prev | components/sections/portfolio-section.tsx:20-22 | previous stays in [0, n) and wraps from the first slide to the last (as in testimonials-section.tsx:14-16) |
| Carousel.BrowseStaysOnASlide | components/sections/portfolio-section.tsx:16-108 | from a valid slide, any sequence of arrow and dot clicks on rendered controls stays on a valid slide (the testimonials use the same controls) |
| Carousel.PrevNext | components/sections/portfolio-section.tsx:16-22 | previous undoes next and next undoes previous on every valid index |
| Carousel.NextTimesAdd | components/sections/testimonials-section.tsx:10-12 | a presses of next then b presses are a + b presses |
| Carousel.NextTimesAdvances | components/sections/testimonials-section.tsx:10-12 | short of the last slide, k presses advance the index by k |
| Carousel.FullCycle | components/sections/testimonials-section.tsx:10-12 | n presses of next return to the starting slide |
| Carousel.ToggleBeforeAfter | components/sections/portfolio-section.tsx:12-14 | the project's shown side flips; every other project keeps its entry |
| Carousel.FirstToggleShowsAfter | components/sections/portfolio-section.tsx:55 | an untouched project shows "before", and its first toggle shows "after" |
| Carousel.ToggleTwice | components/sections/portfolio-section.tsx:12-14 | two toggles show the same side for every project as before |
| Equipment.StatusBadge | components/manager/equipment-list.tsx:71-84 | the four known statuses get their labels and any other status is shown verbatim |
| Equipment.FilteredEquipment | components/manager/equipment-list.tsx:61-69 | the rows are the equipment matching the search (name or serial, ignoring case) and the status filter, in order |
| Equipment.NoFilterKeepsAll | components/manager/equipment-list.tsx:61-69 | empty search with status "all" shows every item |
| Equipment.StatusFilterExact | components/manager/equipment-list.tsx:66 | a specific status shows only equipment in that status |
| Equipment.ComputeStats | components/manager/equipment-list.tsx:115-120 | total is the list length, each counter counts its status, and available + in use + maintenance ≤ total |
| Equipment.MaintenanceAlert | components/manager/equipment-list.tsx:86-113 | no date gives no alert; past dates give "overdue", 0 to 7 days the warning, more the plain notice, with the day count |
| Equipment.AlertText | components/manager/equipment-list.tsx:91-112 | the text is "Atrasada" exactly for the overdue alert; the warning and the plain notice read "Em " then a day count that `parseInt` gives back, then " dias" |
| Equipment.DaysText | components/manager/equipment-list.tsx:103 | "Em <days> dias", from which `parseInt` after "Em " reads back the day count |
| Equipment.NearerIsAsUrgent | components/manager/equipment-list.tsx:86-113 | of two dated items, the one due sooner gets an alert at least as urgent: overdue before the warning before the plain notice |
| Equipment.DatedAlertText | components/manager/equipment-list.tsx:86-113 | a dated item shows "Atrasada" exactly when its date is past, and otherwise its day count |
| Equipment.Fetch | components/manager/equipment-list.tsx:41-51 | the list is replaced only when the query returns data |
| Equipment.UpdateStatus | components/manager/equipment-list.tsx:53-59 | the list is reloaded only when the status update succeeds |
| Equipment.StatusChangeReloaded | components/manager/equipment-list.tsx:53-69 | after a successful status change and reload, exactly the equipment with that id has the new status and the filter for that status lists it; the rest of the stored list is shown unchanged |
| Contracts.StatusLabel | components/manager/contracts-list.tsx:17-22 | each status has its own label |
| Contracts.ClientLabel | components/manager/contracts-list.tsx:126 | the client's name, or "Sem cliente" when it is missing or empty |
| Contracts.SearchFilter | components/manager/contracts-list.tsx:48-55 | an empty search keeps every contract; otherwise exactly those whose number, title or client name contains it ignoring case; order is kept |
| Contracts.ShownContracts | components/manager/contracts-list.tsx:41-57 | the list is exactly the fetched contracts passing the status and search filters, and empty without data |
| Contracts.ShownIsSubsequence | components/manager/contracts-list.tsx:46-57 | the shown list is an order-preserving subsequence of the fetched one |
| Contracts.DaysUntilExpiry | components/manager/contracts-list.tsx:64-67 | no (or an empty) end date gives no day count; otherwise the days to it |
| Contracts.ExpiringSoonExactly | components/manager/contracts-list.tsx:115-116 | "expiring soon" holds exactly for an end date 1 to 30 days away, never for an open-ended contract |
| Financial.StatusLabel | components/manager/financial-dashboard.tsx:25-30 | each status has its own label |
| Financial.AmountPrefix | components/manager/financial-dashboard.tsx:229 | the amount carries "-" exactly for expenses |
| Financial.Rows | components/manager/financial-dashboard.tsx:61-72 | the rows are exactly the fetched transactions of the tab's type in the month, in order; no data gives none |
| Financial.Summarize | components/manager/financial-dashboard.tsx:75-84 | each total is 0 when no row has its type and status, and no total is negative when no amount is |
| Financial.SummarizeIsTally | components/manager/financial-dashboard.tsx:75-84 | the four filtered sums equal a one-pass tally of each row's contribution |
| Financial.FirstRowStep | components/manager/financial-dashboard.tsx:75-84 | the totals of a list are its first row's contribution plus the totals of the rest |
| Financial.TotalStep | components/manager/financial-dashboard.tsx:80-83 | one type-and-status total of a list is the first row's amount, when it has that type and status, plus the total of the rest |
| Financial.BalanceIsSignedSum | components/manager/financial-dashboard.tsx:75-101 | the balance equals the sum over paid rows of income amounts minus expense amounts |
| Financial.CancelledContributeNothing | components/manager/financial-dashboard.tsx:75-84 | dropping the cancelled transactions leaves all four totals unchanged |
| Financial.TabTotals | components/manager/financial-dashboard.tsx:61-84 | on the income tab the expense total is 0; on the expenses tab the three income totals are 0 |
| Financial.PaidRowNotOffered | components/manager/financial-dashboard.tsx:240 | a pending row offers the button, and once paid it no longer does and carries today's payment date |
| Financial.MarkAsPaid | components/manager/financial-dashboard.tsx:89-98 | the update sets status paid and today's payment date for that id, and the list reloads exactly on success |
| Financial.PayingPendingIncome | components/manager/financial-dashboard.tsx:80-98 | paying a pending income moves its amount from the pending total to the income total and leaves the other totals |
| Financial.SplitTotals | components/manager/financial-dashboard.tsx:75-84 | each total of a list is the sum of the totals of its parts |
| Financial.SplitOne | components/manager/financial-dashboard.tsx:80-83 | one type-and-status total splits over a concatenation around one row |
| Sidebar.DashboardOnlyExact | components/manager/sidebar.tsx:58 | the "/manager" entry is active only on exactly "/manager" |
| Sidebar.SectionByPrefix | components/manager/sidebar.tsx:58 | any other entry is active exactly on the paths it is a prefix of |
| Sidebar.SubPageActive | components/manager/sidebar.tsx:58 | a sub-page keeps its section active |
| Sidebar.PrefixWithoutBoundary | components/manager/sidebar.tsx:58 | the prefix test has no segment boundary: "/manager/clients-archive" activates "/manager/clients" |
| Sidebar.ExactlyOneActiveOnEachHref | components/manager/sidebar.tsx:27-58 | on the href of any navigation entry, that entry and no other is active |
| Sidebar.AvatarInitial | components/manager/sidebar.tsx:80 | "U" when the name is missing or empty, otherwise the upper-cased first Unicode character; a first character beyond U+FFFF is shown whole |
| Sidebar.InitialIsU | components/manager/sidebar.tsx:80 | the initial is "U" exactly when the name is missing or empty or starts with "u" or "U" |
| Sidebar.OrElse | components/manager/sidebar.tsx:84-85 | `value \|\| fallback`: a present non-empty value is shown, otherwise the fallback ("Usuário" under the name, "field_team" under the role); a non-empty fallback never gives a blank line |
| Text.UpperOf | components/manager/sidebar.tsx:80 | upper-casing one character is never empty; a paired lower-case letter maps to the upper-case letter that lower-cases back to it; other characters stay, except ß, ÿ and µ |
| Text.LowerIdempotent | components/manager/inventory-dashboard.tsx:113 | lower-casing twice is lower-casing once and keeps the length |
| Text.IncludesIgnoringCaseBasics | components/manager/inventory-dashboard.tsx:113 | every string includes the empty search and itself |
| Text.Digits | components/manager/kanban-board.tsx:123 | stripping non-digits keeps exactly the digits, in order |
| Text.DigitsAppend | components/manager/kanban-board.tsx:123 | stripping distributes over concatenation |
| Text.TrimStart | components/manager/inventory-dashboard.tsx:83 | `parseInt` skips exactly the leading white space |
| Text.ParseIntOfIntToString | components/manager/inventory-dashboard.tsx:83 | `parseInt` reads back any printed integer followed by a tail that does not start with a digit (nor, after a lone "0", with "x" or "X") |
| Text.ParseIntHex | components/manager/inventory-dashboard.tsx:83 | after "0x", `parseInt` reads the digits in base 16 |
| Text.ParseIntNeedsADigit | components/manager/inventory-dashboard.tsx:83-84 | without a digit after white space and sign, `parseInt` gives NaN |
| Seqs.Filter | components/manager/kanban-board.tsx:129 | `filter` keeps exactly the passing elements, in order, as a subsequence |
| Seqs.FilterMultiset | components/manager/kanban-board.tsx:129 | `filter` keeps each passing element as many times as it occurs, and no other element |
| Seqs.UpdateWhere | components/manager/kanban-board.tsx:75 | the selective `map` rewrites exactly the selected elements and keeps the length |
| Seqs.FilterCommutes | components/manager/kanban-board.tsx:99 | two filters give the same list in either order |

## Left out

- Backend queries, inserts, updates and deletes are not modelled, and neither are auth or the realtime channel. Each round trip is a success flag. A reload is the rows it returns. Ordering done by the query (by name, date or creation time) is taken as given in the input list.
- Date handling is not modelled: `new Date()`, `differenceInDays`, month bounds and date formatting. Timestamps are opaque strings, and day counts and the month test are caller-supplied functions.
- Floating-point money and `toLocaleString` are not modelled; amounts are exact reals.
- The following are parameters or values, not effects: `encodeURIComponent`, `window.open`, toasts, `confirm`, router navigation, and the `Date.now`/`Math.random` notification ids.
- Notification metadata and the toast that accompanies each notification are not modelled.
- Loading flags are not modelled. Neither is the disabling of buttons during a request, or concurrent requests.
- The movement table's constraints are taken from its declared row type in lib/types/database.ts; which columns the backend fills itself is an assumption of the model.
- Movements.ReadMovement: a missing `quantity` column reads as 0 and a missing text column as ""; what the backend returns for such rows is not modelled.
- Kanban.WhatsAppMessage: chooses the template by the stage name alone. The stage names of `Object.prototype` ("constructor", "toString", …), which would index the messages record and yield a function, are not modelled.
- Carousel.Next: requires n > 0, because both slide lists are fixed non-empty constants. With no slides the JavaScript result would be NaN.
- Carousel.Prev: requires n > 0 for the same reason.
- Quotes.UpdateItem: requires the index to be a row of the table. Outside the list the code would throw when writing the field. The code copies only the array and mutates the line object in place, which the previous state still shares; the model builds a fresh line, which shows the same on this screen, where nothing reads the previous state.
- Quotes.EditItem: models only the four fields the table edits. It does not model the JavaScript number coercions `Number(...)` and `parseFloat(...) \|\| 0`; quantities and prices arrive as reals.
- Quotes.Total: takes the discount percentage as a real. `Number(discount_percent)` of a non-numeric string (NaN) is not modelled.
- The quote submit flow is not modelled: the payload shaping and the delete-then-insert of the items.
- Text.UpperOf: models case mapping for ASCII and Latin-1 only. Text.Lower is limited the same way.
- Sidebar.AvatarInitial: takes the first Unicode character, where `charAt(0)` takes the first UTF-16 code unit. For a name starting beyond U+FFFF (an emoji, say) the code shows a lone high surrogate, which a Dafny string of Unicode characters cannot hold; the model shows the whole character instead.
- Text.ParseInt: reads digits into an unbounded integer. It does not model the precision loss of numbers beyond 2^53.
- The services catalogue's name search and the quote form's active-service query are backend filters and are not modelled.
- The marketing sections other than the two carousels are static content and are not modelled.

## Findings

| source | as written | input that shows it | evidently intended | confidence | as-written member | corrected member |
|---|---|---|---|---|---|---|
| components/manager/inventory-dashboard.tsx:96-102 | the movement insert names `inventory_item_id`, `movement_type` and `notes`, omits `previous_quantity` and `new_quantity`, writes the kind as "entrada"/"saida", and its error is not read | any confirmed entry or exit: the table's row type (lib/types/database.ts:225-236) has `item_id`, `type` and `reason` and requires both quantities, and the history page (components/manager/inventory-movements.tsx:18,58-90,156-163) reads `type` and recognises only "entry", "exit" and "adjustment"; the insert cannot be stored, and were it stored it would be badged "Perda", unsigned, and hidden by its own filter, while the dashboard reloads as if it had succeeded | insert `item_id`, `type` "entry"/"exit", `quantity`, `previous_quantity`, `new_quantity` and `reason`, so the history shows the movement as "Entrada"/"Saída" with "+"/"-" under its filter | not executed | Inventory.DashboardInsertLost | Inventory.HandleMovementCorrected |

