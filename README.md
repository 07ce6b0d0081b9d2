# Order tracking for a sportswear workshop, modelled in Dafny

The application tracks garment orders through two stages, design and
production. Three roles use it: Admin, Designer and Producer. The store
(`App.tsx`) holds the orders and the notifications. Updating an order fires
three edge-triggered rules:

- every item becoming design-complete notifies Producer;
- every item becoming production-complete notifies Admin;
- the assignee going from empty to set notifies Admin.

Around the store sit four views:

- the order cards with their counts and status (`components/OrderList.tsx`);
- the notification bell, which filters by role, sorts newest first and shows an unread badge (`components/Notifications.tsx`);
- the order detail view, which holds the checkbox toggles, the date and assignee inputs, and the editable deep copy saved as a whole (`components/OrderDetail.tsx`);
- the new-order form (`components/CreateOrderModal.tsx`).

How the model is built:

- `Types` holds the records of `types.ts`.
  - Nullable texts are `Option<string>`, with `Truthy`, so that `null` and `""` count alike.
  - Item objects are shared and mutated in place by the detail view, so an item is a class, `OrderItem`.
  - An order is the datatype `OrderRecord<I>`. `Order` is the order as held, with item objects. `OrderValue` is its value, with item values, read through `View`.
  - Every rule is a function on values.
- `App.Store` is a class. Its fields are `orders`, `notifications`, the current role and the selected order.
  - Its methods state their new state through those functions.
  - Ids and clock readings come in as parameters: `Stamp` and `Stamps`.
- The handlers of the views are methods on the store, or on the editor and form classes, each with its own state.

Two behaviours of the code are stated rather than smoothed over:

- A checkbox toggle changes the stored item objects before the store compares old and new. So the design and production rules never fire from a toggle (see Findings).
- The assignee input updates the store on every keystroke. The assignment notification therefore fires on the first character typed, and names only that character.

## Model

| member | source | states |
|---|---|---|
| Types.OrderItem.constructor | types.ts:7-14 | a new item object holds exactly the given id, texts and flags |
| Types.View | types.ts:16-27 | the value of an order keeps every field and reads each item object's current fields |
| Types.Flip | components/OrderDetail.tsx:26-29 | inverting one stage flag keeps the other flag, the id and the texts |
| Types.SetText | components/OrderDetail.tsx:50 | setting one text of an item changes that text only and keeps the id and both flags |
| Types.RemoveAt | components/OrderDetail.tsx:67 | dropping the element at an index in range is the sequence without it, in order; an index out of range drops nothing |
| App.EveryDone | App.tsx:91-92 | `every` holds exactly when each item carries the stage's flag (vacuously for no items) |
| App.AllDesigned | App.tsx:90-91 | all-designed holds exactly when there is an item and every item is design-complete |
| App.AllProduced | App.tsx:90-92 | all-produced holds exactly when there is an item and every item is production-complete |
| App.NewNotification | App.tsx:52-59 | the new notification is unread and carries the fresh id, the clock reading, the message, the order id and the roles |
| App.AssignedMessage | App.tsx:103 | the assignment message starts with the order name and ends with the assignee and a full stop |
| App.TransitionNotices | App.tsx:94-104 | one update adds one notice per rule that fires, 0 to 3, all unread and for the updated order. Each rule's notice is present exactly when its rule fires. A Producer-targeted notice appears exactly when design completes. A predecessor already designed, produced and assigned yields none. |
| App.FindById | App.tsx:86 | `find` gives nothing exactly when no order has the id, and otherwise the first order of the list with that id |
| App.ReplaceById | App.tsx:106 | the replacement keeps the length, puts the update wherever the id matches and keeps every other order |
| App.ReplaceThenFind | App.tsx:106 | after a replacement, looking the id up finds the update, and replacing again changes nothing |
| App.MarkRead | App.tsx:63-65 | only `isRead` changes, and it becomes true exactly where the id matches or it already was |
| App.MarkAllRead | App.tsx:67-74 | only `isRead` changes, and it becomes true exactly where it already was or the id is the id of a notification targeting the role (so every notification targeting the role becomes read) |
| App.MarkAllReadExactly | App.tsx:67-74 | with distinct ids, a notification ends up read exactly when it was read or targets the role |
| App.MarkReadIdempotent | App.tsx:63-65 | marking the same id read twice is marking it once |
| App.MarkAllReadIdempotent | App.tsx:67-74 | marking all read twice for a role is marking them once |
| App.Store.constructor | App.tsx:45-49 | the initial state holds the given orders, no notification, role Admin and no selection |
| App.Store.SelectedOrder | App.tsx:109-112 | the shown order is the first order of the list with the selected id, and there is none when nothing is selected or no order has that id |
| App.Store.SelectOrder | App.tsx:114-116 | selecting sets the selected id and changes nothing else |
| App.Store.SetCurrentUserRole | App.tsx:46 | switching role sets the role and changes nothing else |
| App.Store.AddNotification | App.tsx:51-61 | the new unread notification is prepended; the older ones follow in their order; the orders are unchanged |
| App.Store.MarkAsRead | App.tsx:63-65 | the notifications become `MarkRead` of the old ones; nothing else changes |
| App.Store.MarkAllAsRead | App.tsx:67-74 | the notifications become `MarkAllRead` of the old ones for the current role; nothing else changes |
| App.Store.AddOrder | App.tsx:76-83 | the order, with its fresh id, goes first before the old orders in their order, and exactly one creation notification for Designer and Producer is prepended, whatever the items |
| App.Store.RaiseTransitionNotices | App.tsx:94-104 | the three rules prepend exactly `TransitionNotices` of the stored order and the update |
| App.Store.UpdateOrder | App.tsx:85-107 | an unknown id changes nothing. Otherwise the notices of the rules, comparing the stored order as it is now with the update, are prepended, and the update replaces the stored order. |
| OrderList.CountDone | components/OrderList.tsx:15-16 | a completion count is never above the number of items |
| OrderList.CountDoneReachesTotal | components/OrderList.tsx:14-16 | a count equals the number of items exactly when every item has the flag |
| OrderList.StatusLabelsDiffer | components/OrderList.tsx:22-25 | the four statuses show four different labels |
| OrderList.GetStatus | components/OrderList.tsx:21-26 | a delivery date gives delivered. Otherwise it is production-finished exactly when all-produced, then design-finished exactly when all-designed, else in process. An undelivered order without items is in process. |
| OrderList.CountDoneSeesOnlyFlags | components/OrderList.tsx:15-16 | the counts depend on the item flags only |
| OrderList.StatusSeesOnlyDeliveryAndFlags | components/OrderList.tsx:21-26 | two orders alike in delivery truthiness and item flags have the same status |
| Notifications.ForRole | components/Notifications.tsx:32-33 | the filter keeps exactly the notifications that target the role and never grows the list |
| Notifications.ForRoleCons | components/Notifications.tsx:32-33 | the filter looks at the first notification, then filters the rest |
| Notifications.ForRoleKeepsOrder | components/Notifications.tsx:32-33 | filtering a concatenation concatenates the filtered parts, so the filter keeps the order |
| Notifications.ForRoleOne | components/Notifications.tsx:32-33 | a single notification is kept exactly when it targets the role |
| Notifications.ForRoleCounts | components/Notifications.tsx:32-33 | every occurrence of a notification targeting the role is kept, and no occurrence of any other |
| Notifications.InsertByTime | components/Notifications.tsx:34 | inserting adds the notification and loses none |
| Notifications.InsertByTimeKeepsOrder | components/Notifications.tsx:34 | inserting into a newest-first list keeps it newest first |
| Notifications.SortNewestFirst | components/Notifications.tsx:34 | the sort is a permutation and newest first |
| Notifications.UserNotifications | components/Notifications.tsx:31-35 | the visible list holds exactly the role's notifications, is a permutation of the filtered list and is newest first |
| Notifications.UnreadCount | components/Notifications.tsx:38 | the unread count never exceeds the length, and it is zero exactly when every notification is read |
| Notifications.UnreadCountInsert | components/Notifications.tsx:37-39 | inserting by time does not change the unread count |
| Notifications.UnreadCountSort | components/Notifications.tsx:37-39 | sorting does not change the unread count |
| Notifications.UnreadCountOfUserNotifications | components/Notifications.tsx:37-39 | the badge counts the unread among the role's notifications, whatever the order, and is at most the visible length |
| Notifications.NoUnreadWhenAllRead | components/Notifications.tsx:38 | a list whose notifications are all read counts zero |
| Notifications.MarkAllAsReadClearsBadge | components/Notifications.tsx:37-39 | after marking all read for a role, that role's badge counts zero |
| Notifications.HandleNotificationClick | components/Notifications.tsx:53-59 | a click marks the notification read only when it is unread and always selects its order |
| OrderDetail.IndexOfItem | components/OrderDetail.tsx:24 | the item lookup finds the first item with the id, or reports that none has it |
| OrderDetail.FlipAt | components/OrderDetail.tsx:26-29 | flipping item k inverts that item's flag and keeps every other item and every order field |
| OrderDetail.HandleItemStatusToggle | components/OrderDetail.tsx:22-33 | an unknown item id changes nothing. Otherwise the stored item object gets exactly the one flag flipped, other items are untouched, and the store replaces the order and adds the rule notices comparing the stored order, as it now looks, with the sent one. When the order is the stored one, no notification is raised. Role and selection are kept. |
| OrderDetail.HandleItemStatusToggleCopying | components/OrderDetail.tsx:22-33 | the copy-on-write toggle sends the order with item k flipped; the store replaces the order and adds the rule notices comparing the stored order with the sent one, which for the stored order itself are those of the flip. Role and selection are kept. |
| OrderDetail.WithFlippedCopy | components/OrderDetail.tsx:23-29 | the sent order's value is the flipped order, with a new object for item k only |
| OrderDetail.LastDesignFlipNotifiesProducer | App.tsx:94-96 | flipping the last design-pending item raises exactly the design notice |
| OrderDetail.ToggleCompletingDesignIsSilent | components/OrderDetail.tsx:22-33 | ticking the only pending design box completes the design of the order, and no notification is raised |
| OrderDetail.ToggleCopyCompletingDesignNotifies | components/OrderDetail.tsx:22-33 | the same click with a copied item raises one notification, for Producer |
| OrderDetail.WithDate | components/OrderDetail.tsx:35-37 | setting a date changes that date only |
| OrderDetail.HandleDateChange | components/OrderDetail.tsx:35-37 | the store replaces the order by the order with that date set and adds the rule notices comparing the stored order with it, which are none when the order is the stored one. Role and selection are kept. |
| OrderDetail.ItemsKeptNotices | App.tsx:94-104 | an update that keeps the items can raise only the assignment notice |
| OrderDetail.HandleAssignedToChange | components/OrderDetail.tsx:39-41 | the store replaces the order by the order with the new assignee and adds the rule notices comparing the stored order with it. For the stored order itself that is the assignment notification exactly when the assignee was empty and the value is not. Role and selection are kept. |
| OrderDetail.TypingAnAssigneeNamesItsFirstLetter | components/OrderDetail.tsx:39-41 | typing "An" into an empty assignee raises one notification, and it names "A" |
| OrderDetail.RenderStatusPill | components/OrderDetail.tsx:80-88 | production OK exactly when production is complete; design OK exactly when design is complete and production is not; pending otherwise |
| OrderDetail.AllPillsProducedMeansProductionFinished | components/OrderDetail.tsx:80-88 | an undelivered order whose pills all read production OK has the production-finished status |
| OrderDetail.DeepCopy | components/OrderDetail.tsx:15 | the deep copy has the same value, with new and distinct item objects |
| OrderDetail.WithText | components/OrderDetail.tsx:43-46 | setting the name, client or details changes that text only |
| OrderDetail.OrderEditor.constructor | components/OrderDetail.tsx:15 | the editable order starts as a deep copy of the shown order |
| OrderDetail.OrderEditor.Resync | components/OrderDetail.tsx:17-20 | a change of the shown order replaces the editable order with a new deep copy |
| OrderDetail.OrderEditor.HandleEditChange | components/OrderDetail.tsx:43-46 | one text of the editable order changes |
| OrderDetail.OrderEditor.HandleItemEditChange | components/OrderDetail.tsx:48-52 | the item object at the index has exactly the one text changed, in place |
| OrderDetail.OrderEditor.HandleAddItem | components/OrderDetail.tsx:54-64 | exactly one new blank, pending item is appended, and the others are kept |
| OrderDetail.OrderEditor.HandleRemoveItem | components/OrderDetail.tsx:66-69 | the items become those without the one at the index |
| OrderDetail.OrderEditor.SaveChanges | components/OrderDetail.tsx:71-74 | the store receives the whole edited order, as `UpdateOrder` states; role and selection are kept |
| OrderDetail.EditingTheCopyLeavesTheOrder | components/OrderDetail.tsx:48-52 | editing an item of the copy changes the copy's item and leaves the shown order as it was |
| CreateOrderModal.SetRowText | components/CreateOrderModal.tsx:22 | setting one text of a row changes that text only |
| CreateOrderModal.NewItemValues | components/CreateOrderModal.tsx:45-50 | one item per row, in row order, with the row's texts, the given id and both stages pending |
| CreateOrderModal.DatePart | components/CreateOrderModal.tsx:51 | the start date is the longest prefix of the ISO time without a 'T' |
| CreateOrderModal.NewOrderValue | components/CreateOrderModal.tsx:41-56 | the built order has the form's texts, the new items, the start date, no other date and no assignee |
| CreateOrderModal.NewOrderIsPending | components/CreateOrderModal.tsx:45-50 | a new order is neither all-designed nor all-produced, is in process, and every pill reads pending |
| CreateOrderModal.EmptyOrderNeverCompletes | App.tsx:90-92 | an update to an order without items can raise only the assignment notice |
| CreateOrderModal.BuildItems | components/CreateOrderModal.tsx:45-50 | the new item objects are new and distinct, and their values are `NewItemValues` |
| CreateOrderModal.CreateOrderForm.constructor | components/CreateOrderModal.tsx:13-18 | the form starts with empty texts and one blank row |
| CreateOrderModal.CreateOrderForm.HandleInput | components/CreateOrderModal.tsx:78-92 | typing into the name, client or details sets that text only |
| CreateOrderModal.CreateOrderForm.HandleItemChange | components/CreateOrderModal.tsx:20-24 | one text of the row at the index changes; the row count, the other rows and the texts are kept |
| CreateOrderModal.CreateOrderForm.AddItem | components/CreateOrderModal.tsx:26-28 | a blank row is appended |
| CreateOrderModal.CreateOrderForm.RemoveItem | components/CreateOrderModal.tsx:30-33 | the row at the index is dropped; an index out of range drops nothing |
| CreateOrderModal.CreateOrderForm.HandleSubmit | components/CreateOrderModal.tsx:35-64 | without a name or a client nothing changes. Otherwise the store gets the built order first, with new item objects, plus exactly the creation notification, and the form returns to its initial state. |

## Left out

- Rendering and styling: the JSX, the header's role switch buttons and the logo are presentation only.
- `sw.js`: the service worker's cache handling is browser I/O.
- `formatDistanceToNow` (components/Notifications.tsx:13-25): it does wall-clock arithmetic with rounding.
- The progress percentages (components/OrderList.tsx:18-19): they use floating-point division.
- `crypto.randomUUID()` and `new Date()` are parameters. Ids come in as `Stamp` ids, item ids and order ids. Clock readings come in as integer `Stamp` timestamps and the ISO text `now`.
- Notifications.SortNewestFirst: timestamps are integers rather than ISO texts parsed by `new Date`. The sort is stable, but the model does not prove it.
- React's hooks, batching and the stale `orders` closure (App.tsx:106) are not modelled. Each handler is one sequential step. `Resync` is the effect at components/OrderDetail.tsx:17-20, which the caller runs when the shown order changes. `alert`, `onClose`, `isEditing`, the open and closed state of the dropdown and the click-outside listener are not modelled.
- Role gating: it is only `disabled` attributes and conditional rendering, so every handler is callable by every role.
- The mock initial orders (App.tsx:9-41): they are the constructor's parameter.
- OrderDetail.OrderEditor.HandleItemEditChange: requires an index in range. Out of range, the source writes into `undefined` and throws.
- CreateOrderModal.CreateOrderForm.HandleItemChange: requires an index in range. Out of range, the source would extend the array; the inputs only pass rendered indices.
- OrderDetail.OrderEditor.SaveChanges: after a save, the store holds the editor's item objects until the next `Resync`, which the view runs because the shown order changes. The model states the save only.
- OrderDetail.HandleDateChange: models only the four date fields the view passes, not an arbitrary `keyof Order`.

## Findings

| source | as written | input that shows it | evidently intended | confidence | as-written member | corrected member |
|---|---|---|---|---|---|---|
| components/OrderDetail.tsx:22-33 | `{ ...order }` is a shallow copy, so the flip mutates the item object the stored order holds before `updateOrder` looks the original up; old and new orders then look alike and the design and production rules cannot fire | one order with one item whose design is pending; the design box is ticked | ticking the last pending design box notifies Producer that the design is complete | not executed | OrderDetail.ToggleCompletingDesignIsSilent | OrderDetail.HandleItemStatusToggleCopying |
