# Hubly helpdesk core in Dafny

Hubly is a customer-support helpdesk. A visitor opens a chat from the website widget, and the chat becomes a **ticket**. The ticket is assigned to the single **admin**, who can hand it to a team **member**. Staff reply from the Contact Center. A chat counts as **missed** when the customer waited longer than a configurable timer without a staff reply. The admin manages the team, the chatbot's look and the missed-chat timer, and reads analytics about missed chats, reply times and resolved tickets.

This project models the core of that system and proves properties of the model:

- **The backend.** The ticket, message, user, auth and settings controllers; the analytics service; the auth and error middlewares; the Ticket and ChatbotSettings models and their id sequencer and validators. These work over a `Store.Db` class that holds the four collections in creation order. Handlers that change records are methods with `modifies db`, and each one's `ensures` states the whole new store. Replies are a `Response` datatype: `Ok(value)` or `Fail(status, message)`, with the same status codes and messages as the source.
- **The three missed-chat rules** (module `MissedChat`). The per-read evaluator is anchored on the first customer message. The analytics sweep is anchored on ticket creation. The bulk rule of the ticket service is anchored on last activity. The module proves how the three rules relate.
- **The management front end.** The pure decisions become functions and lemmas: who may see or answer a chat, tab filters, validation chains, initials, reply-time formatting and the timer wheel's index arithmetic. Components that keep state become classes whose methods update their fields: the Contact Center page, the details column's confirmation dialogs, the reply box, the dashboard's list and cursor, the timer wheel, the sign-up, settings and team dialogs, and the visitor's chat popup. Lemmas and small driver methods check these front-end rules against the backend endpoints they call.

Module per source file:

| module | source file |
|---|---|
| Domain | backend/src/config/constants.js, backend/src/models/Message.js, backend/src/models/Ticket.js (records) |
| Store | the collections behind the Mongoose models |
| MissedChat | ticketController.js `checkIfTicketIsMissed`, analyticsService.js `updateMissedChats`, ticketService.js `checkMissedChats` |
| TicketController, TicketList | backend/src/controllers/ticketController.js |
| TicketId | backend/src/models/Ticket.js (pre-save hook) |
| MessageController | backend/src/controllers/messageController.js |
| UserController | backend/src/controllers/userController.js |
| AuthController | backend/src/controllers/authController.js |
| SettingsController | backend/src/controllers/settingsController.js |
| ChatbotSettingsModel | backend/src/models/ChatbotSettings.js |
| AnalyticsService, Calendar | backend/src/services/analyticsService.js |
| AuthMiddleware | backend/src/middlewares/authMiddleware.js |
| ErrorHandler | backend/src/middlewares/errorHandler.js |
| TicketService | management-frontend/src/services/ticketService.js |
| ContactCenter, ChatList, ChatDetails, ChatBox, MessageInput | management-frontend/src/pages/ContactCenter.jsx and components/contactCenter/*.jsx |
| DashboardPage, ChatbotSettingsPage, AnalyticsPage, SignupPage, SettingsPage | management-frontend/src/pages/*.jsx |
| TeamTable, AddMemberModal | management-frontend/src/components/team/*.jsx |
| ChatPopup | management-frontend/src/components/chatbot/ChatPopup.jsx |
| Wrappers, Text, Sequences | Option, JavaScript string operations, filtering, counting and a stable sort |

Notes on how the model reads the code:

- **Code over documentation.** The system's documentation says at most one admin ever exists. `updateUser` checks that rule only when an admin is demoted, so an admin can promote a member and end up with two admins (userController.js:150-165). The model follows the code, and `UserController.PromotionMakesSecondAdmin` states the outcome.
- **The `senderType` filter.** The sweep's reply filter asks for a `senderType` field that the Message schema does not have. `MissedChat` models both readings of that query. With Mongoose's `strictQuery` on, the unknown field is dropped from the filter, so any message of the ticket counts as a reply, the customer's own included. With it off, no message matches. See Findings.
- **Admin-only routes.** The routers put some endpoints behind `adminOnly`. Those gates become `requires caller.role == Admin` on the matching handlers.
- **Ticket validation.** `createTicket` has no checks of its own. The required fields, the email format and the unique ticket number come from the Ticket schema (Ticket.js:4-46), and a refusal is turned into a reply by the error handler.

## Model

| member | source | states |
|---|---|---|
| ErrorHandler.Capitalize | backend/src/middlewares/errorHandler.js:13 | the capitalised field keeps its length, upper-cases the first character and keeps the rest |
| ErrorHandler.Handle | backend/src/middlewares/errorHandler.js:29-33 | a reply always carries a non-zero status and a non-empty message (`|| 500`, `|| 'Server Error'`) |
| ErrorHandler.HandleFailsOnlyWithoutKey | backend/src/middlewares/errorHandler.js:11-15 | the handler itself throws exactly for a duplicate-key error without a key to name |
| ErrorHandler.DuplicateKeyReply | backend/src/middlewares/errorHandler.js:11-15 | a duplicate-key error answers 400 "<First key, capitalised> already exists" |
| ErrorHandler.EmailAlreadyExists | backend/src/middlewares/errorHandler.js:11-15 | a duplicate email answers 400 "Email already exists" |
| ErrorHandler.ValidationReply | backend/src/middlewares/errorHandler.js:18-21 | a validation error answers 400 with the sub-error messages joined by ", ", or "Server Error" when that join is empty |
| ErrorHandler.CastReply | backend/src/middlewares/errorHandler.js:24-27 | a cast error answers 404 "Resource not found" |
| ErrorHandler.OtherReply | backend/src/middlewares/errorHandler.js:29-33 | any other error keeps its own non-zero status and non-empty message, else 500 and "Server Error" |
| AuthMiddleware.BearerToken | backend/src/middlewares/authMiddleware.js:9-11 | a token is found only in a header starting with "Bearer", and is non-empty and free of spaces |
| AuthMiddleware.BearerTokenOfHeader | backend/src/middlewares/authMiddleware.js:9-11 | "Bearer <token>" yields exactly that token |
| AuthMiddleware.BareBearerHasNoToken | backend/src/middlewares/authMiddleware.js:9-18 | "Bearer" and "Bearer " carry no token |
| AuthMiddleware.Protect | backend/src/middlewares/authMiddleware.js:5-49 | every refusal is 401; each message holds exactly in its case (no token, token fails, unknown user); the request passes exactly for a stored user whose password did not change after the token was issued, and `req.user` is that user |
| AuthMiddleware.AdminOnly | backend/src/middlewares/authMiddleware.js:51-60 | passes exactly an admin user; anything else gets 403 "Access denied. Admin only." |
| AuthMiddleware.AdminRouteGate | backend/src/middlewares/authMiddleware.js:5-60 | `protect` then `adminOnly` reach the handler exactly for a stored admin with a current token; a member gets 403 and earlier failures keep 401 |
| AuthController.Signup | backend/src/controllers/authController.js:8-46 | 403 while an admin exists; 400 for an email in use; otherwise exactly one new admin is appended (email lower-cased, fresh id), nothing else changes, and the store then holds exactly one admin |
| AuthController.FirstAdmin | backend/src/controllers/authController.js:12-27 | an admin added where there is none is the only admin |
| AuthController.CheckSignupAvailable | backend/src/controllers/authController.js:191-198 | `checkSignupAvailable`, stated by `SignupAvailableIffNoAdmin`: available exactly when no stored user is an admin |
| AuthController.SignupAvailableIffNoAdmin | backend/src/controllers/authController.js:191-198 | sign-up is reported available exactly when no stored user is an admin |
| AuthController.FindByEmail | backend/src/controllers/authController.js:62 | finds a user holding exactly the (already lower-cased) email, and finds none exactly when no user has it |
| AuthController.Login | backend/src/controllers/authController.js:51-97 | 400 exactly when the email or password is missing; success exactly when the lower-cased email is stored and its user's password checks, returning that user's account; every other failure is 401 "Invalid credentials" |
| AuthController.AdminLogsInAsTyped | backend/src/controllers/authController.js:51-97 | the admin `signup` has just stored logs in with the email typed in any case and gets its own account back |
| AuthController.LoginHidesUnknownEmail | backend/src/controllers/authController.js:64-78 | a wrong password for an email whose lower-case form is stored gets the same reply as an unknown email |
| AuthController.GetProfile | backend/src/controllers/authController.js:102-120 | the reply is the caller's own stored account |
| AuthController.UpdateProfile | backend/src/controllers/authController.js:125-157 | 400 and no change for an email other than the caller's; otherwise only the caller's user changes, to the edited names, and that account is sent back |
| AuthController.ProfileEditKeepsAccount | backend/src/controllers/authController.js:138-139 | an edit keeps id, email, phone, password and role, and keeps a name left empty or out |
| AuthController.ChangePassword | backend/src/controllers/authController.js:162-186 | 400 and no change without a new password; otherwise only the caller's password is replaced |
| AuthController.NewPasswordLogsIn | backend/src/controllers/authController.js:162-186 | after a change, logging in with the caller's email, typed in any case, and the new password returns the caller's account |
| UserController.CreateUser | backend/src/controllers/userController.js:56-109 | 500 without an email; 400 for an email whose lower-case form is stored; 400 for a second admin; otherwise exactly the new user is appended; each failure leaves the store as it was; at most one admin stays at most one |
| UserController.AddingKeepsSingleAdmin | backend/src/controllers/userController.js:69-78 | adding a member, or an admin where none exists, adds one to the admin count only for an admin and keeps "at most one admin" |
| UserController.NewUser | backend/src/controllers/userController.js:81-88 | the user `createUser` stores, stated by `NewUserDefaults`: lower-cased email and the phone, password and role defaults |
| UserController.NewUserDefaults | backend/src/controllers/userController.js:81-88 | a created user's email is lower-case; phone `''`, password `password123` and role member fill what the body leaves out |
| UserController.Edited | backend/src/controllers/userController.js:162-165 | `updateUser`'s assignments, stated by `EditKeepsIdentity`: id, email and password kept, the role changed only by an admin |
| UserController.EditKeepsIdentity | backend/src/controllers/userController.js:162-165 | an edit keeps id, email and password; only an admin's edit changes the role; an empty body changes nothing |
| UserController.UpdateUser | backend/src/controllers/userController.js:114-188 | 404, then 403 for another user, then 403 for a member naming a role, then 400 for demoting the last admin, each without change; otherwise only the target user is replaced by the edited one; an admin always remains once there is one |
| UserController.PromotionMakesSecondAdmin | backend/src/controllers/userController.js:150-165 | an admin promoting a member leaves two admins: the single-admin rule is not checked on role changes |
| UserController.DeleteUser | backend/src/controllers/userController.js:193-266 | 404, 400 (admin), 400 (self), 500 (no admin), in that order, each without change; otherwise the user's tickets go to the first admin, the user is removed, the reply counts the user's tickets, and every admin stays |
| UserController.RemoveMember | backend/src/controllers/userController.js:239-247 | the member's tickets move to the admin, the member alone is removed, the store stays consistent and no admin is removed |
| UserController.DeletionKeepsConsistent | backend/src/controllers/userController.js:239-247 | reassigning to an admin and then removing the member keeps every ticket's assignee a stored user and removes no admin |
| TicketService.Reassigned | management-frontend/src/services/ticketService.js:30-33 | same length; every ticket of `from` now belongs to `to`, and every other ticket is unchanged |
| TicketService.ReassignPass | management-frontend/src/services/ticketService.js:30-38 | the loop's result is `Reassigned`, and its count is the number of tickets actually modified |
| TicketService.ReassignedCounts | management-frontend/src/services/ticketService.js:30-38 | afterwards `from` has no tickets, `to` has its own plus those of `from`, and the modified count equals the tickets `from` had |
| TicketService.ReassignTicketsToAdmin | management-frontend/src/services/ticketService.js:22-42 | throws (500) and changes nothing without an admin; otherwise moves the user's tickets to the first admin and reports the modified count |
| TicketService.CheckMissedChats | management-frontend/src/services/ticketService.js:46-66 | the tickets become the sweep of the stale-and-unflagged rule, and the count returned is the number of tickets it matches |
| TicketService.CheckMissedChatsMarksNewly | management-frontend/src/services/ticketService.js:48-61 | only flags change; a ticket is flagged afterwards exactly when it was, or is unresolved with `lastMessageAt` strictly before the cutoff; flags never clear and the flagged count grows by the count returned |
| TicketService.GetTicketStatistics | management-frontend/src/services/ticketService.js:70-104 | the statistics, stated by `StatisticsAddUp` and `StatisticsScoped`: the status counts partition the total, and a member counts only their own tickets |
| TicketService.StatisticsAddUp | management-frontend/src/services/ticketService.js:70-104 | open + in progress + resolved = total; unresolved = open + in progress, between 0 and the total; missed ≤ total |
| TicketService.StatisticsScoped | management-frontend/src/services/ticketService.js:72-79 | a member's total counts only the tickets assigned to them; any other call counts every ticket |
| MissedChat.FirstCustomer | backend/src/controllers/ticketController.js:25-26 | finds the first message without a sender, or reports that every message has one |
| MissedChat.StaffRepliedAfter | backend/src/controllers/ticketController.js:32-36 | true exactly when some message with a sender is strictly later than the instant |
| MissedChat.MissedAtRead | backend/src/controllers/ticketController.js:8-46 | `checkIfTicketIsMissed`, stated by `MissedAtReadIff`: missed exactly when the settings and messages are read, the timer is non-zero, and the first customer message is older than the timer with no staff reply after it |
| MissedChat.MissedAtReadIff | backend/src/controllers/ticketController.js:8-46 | the evaluator's verdict equals the search-free rule: settings and messages read, a non-zero timer, a first customer message with no later staff message, and strictly more than the timer elapsed since it |
| MissedChat.FirstCustomerUnique | backend/src/controllers/ticketController.js:25 | only one customer message precedes all other customer messages |
| MissedChat.NoTimerNeverMissed | backend/src/controllers/ticketController.js:10-18 | no settings record, or a timer adding up to 0 ms, never makes a chat missed |
| MissedChat.NoCustomerNeverMissed | backend/src/controllers/ticketController.js:23-26 | a conversation without a customer message, the empty one included, is never missed |
| MissedChat.StaffReplyAfterNeverMissed | backend/src/controllers/ticketController.js:32-38 | a staff message strictly after the first customer message rules "missed" out |
| MissedChat.MissedIffElapsed | backend/src/controllers/ticketController.js:40-42 | with a timer set and no later staff message, missed exactly when strictly more than the timer has elapsed |
| MissedChat.FirstCustomerIsEarliest | backend/src/controllers/ticketController.js:20-26 | on time-sorted messages the first customer message is the earliest customer message |
| MissedChat.TenMinuteScenario | backend/src/controllers/ticketController.js:28-42 | with a ten-minute timer: not missed at 9 or exactly 10 minutes, missed at 11, and not missed when staff answered at 5 |
| MissedChat.SameInstantIsNoReply | backend/src/controllers/ticketController.js:32-36 | a staff message at the same instant as the customer's is not a reply |
| MissedChat.SweepTimerMs | backend/src/services/analyticsService.js:27-32 | without a settings record the sweep waits 600000 ms |
| MissedChat.SweepTimerVersusReadTimer | backend/src/services/analyticsService.js:28-32 | the sweep's timer equals the per-read timer, plus ten minutes exactly when the stored minutes are 0 |
| MissedChat.ZeroTimerSweepsAtTenMinutes | backend/src/services/analyticsService.js:28-32 | a 0h 0m 0s timer turns the per-read rule off but makes the sweep wait ten minutes |
| MissedChat.SweepTicket | backend/src/services/analyticsService.js:42-56 | the sweep only ever sets `isMissed`, and sets it exactly on a candidate without reply that is strictly older than the timer |
| MissedChat.SenderTypeFilterMisjudges | backend/src/services/analyticsService.js:44-47 | the `senderType` query flags an answered ticket (strictQuery off) or never flags an unanswered one (strictQuery on), where the sender-id rule decides both correctly |
| MissedChat.SenderIdRuleMarksUnanswered | backend/src/services/analyticsService.js:37-56 | with the sender-id rule a ticket is flagged exactly when it is unresolved, unflagged, strictly older than the timer, and every message of it is the customer's |
| Domain.ParseStatus | backend/src/controllers/ticketController.js:231 | a status is taken only when the field names one of the three statuses, and every one of them is taken |
| Store.FindTicket | backend/src/controllers/ticketController.js:215 | finds the position of a ticket holding that id, and finds none exactly when no stored ticket has it |
| Store.FindUser | backend/src/controllers/ticketController.js:263 | finds the position of a user holding that id, and finds none exactly when no stored user has it |
| Store.FindAdmin | backend/src/controllers/ticketController.js:166 | finds the first admin in storage order, and none exactly when no stored user is an admin |
| Store.ConversationFacts | backend/src/controllers/ticketController.js:140-142 | a ticket's conversation holds exactly its stored messages, as a permutation of them, oldest first |
| Store.ConversationOfOrdered | backend/src/controllers/ticketController.js:140-142 | messages of one ticket already stored oldest first are their own conversation |
| TicketController.NoMessageNoText | backend/src/controllers/ticketController.js:76-84 | a ticket without stored messages is listed with an empty last message |
| TicketController.LastMessageIsLatest | backend/src/controllers/ticketController.js:76-84 | a ticket with messages is listed with the text of one of them that no other message of it follows |
| TicketController.FreshMissedMeaning | backend/src/controllers/ticketController.js:8-46 | a fresh "missed" verdict implies a stored settings record and a customer message older than the timer that no staff message of the ticket follows |
| TicketController.RefreshedChangesOnlyPickedFlags | backend/src/controllers/ticketController.js:87-89 | the rewrite changes only `isMissed` flags and only of picked tickets |
| TicketController.FreshVerdictIgnoresFlag | backend/src/controllers/ticketController.js:8-46 | the fresh verdict does not depend on the stored flag |
| TicketController.RefreshedIdempotent | backend/src/controllers/ticketController.js:87-89 | a second pass with the same verdict changes nothing |
| TicketController.RefreshPass | backend/src/controllers/ticketController.js:73-99 | the loop yields the rewritten tickets and writes exactly once per picked ticket whose flag was stale |
| TicketController.RefreshFlags | backend/src/controllers/ticketController.js:87-89 | the stored tickets become their rewrite and nothing else in the store changes |
| TicketController.GetAllTickets | backend/src/controllers/ticketController.js:49-113 | the reply is the page's views, `hasMore` and the cursor; exactly the page's stale flags are written back, nothing else changes |
| TicketController.ListedTicketsInScope | backend/src/controllers/ticketController.js:54-71 | every listed ticket is in the caller's scope and passes the filter, carries its fresh flag, and the page holds at most `limit` tickets |
| TicketController.GetTicketById | backend/src/controllers/ticketController.js:116-159 | 404 for an unknown id, then 403 for a member on someone else's ticket, each without change; otherwise the ticket with its fresh flag and its conversation, and only that ticket's flag is rewritten |
| TicketController.TicketValidation | backend/src/models/Ticket.js:9-25 | no validation message exactly when the trimmed name, the lower-cased trimmed email and the trimmed phone are present and the email matches the pattern |
| TicketController.LatestCreated | backend/src/models/Ticket.js:52-54 | none exactly for an empty collection; otherwise a ticket created no earlier than any other and later than every ticket stored after it |
| TicketController.InitialMessage | backend/src/controllers/ticketController.js:182-193 | the opening message stored with a new ticket, stated by `CreateTicket` and `ChatPopup.FirstMessageOpensTicket`: the trimmed text as the customer's, none when blank |
| TicketController.CreateTicket | backend/src/controllers/ticketController.js:162-209 | 500 without an admin, 400 for a body failing the schema, 400 for a ticket number already in use, each without change; otherwise one open unflagged ticket assigned to the first admin, numbered by the hook, plus the trimmed opening message when it is not blank |
| TicketController.StoreTicket | backend/src/controllers/ticketController.js:174-193 | appends the ticket and its opening message, if any, and keeps the store consistent |
| TicketController.StatusUpdated | backend/src/controllers/ticketController.js:231-233 | only the status may change, only to a status the request names, and a named status is always taken |
| TicketController.UpdateTicket | backend/src/controllers/ticketController.js:212-246 | 404, then 403 for a member on someone else's ticket, each without change; otherwise only that ticket's status is updated |
| TicketController.StatusKeepsConsistent | backend/src/controllers/ticketController.js:231-235 | rewriting statuses keeps the store consistent |
| TicketController.AssignTicket | backend/src/controllers/ticketController.js:249-281 | 400 without `assignedTo` or `userId` (the former wins), then 404 for the ticket, then 404 for the user, each without change; otherwise only that ticket's assignee becomes the user |
| TicketController.AssigneeChangeKeepsConsistent | backend/src/controllers/ticketController.js:263-270 | assigning a ticket to a stored user keeps the store consistent |
| TicketController.DeleteTicket | backend/src/controllers/ticketController.js:284-299 | 404 without change for an unknown id; otherwise the ticket and every message of it are removed, and nothing else |
| TicketController.DeleteKeepsConsistent | backend/src/controllers/ticketController.js:292-293 | removing a ticket with its messages keeps the store consistent and removes exactly the ticket and its messages |
| TicketController.StatsAddUp | backend/src/controllers/ticketController.js:319-331 | resolved + unresolved = all tickets in scope, and missed ≤ all |
| TicketController.GetTicketStats | backend/src/controllers/ticketController.js:302-345 | the flags in the caller's scope are rewritten first, and the four counts are taken over the rewritten tickets |
| TicketController.MissedCountIsFresh | backend/src/controllers/ticketController.js:309-331 | after the rewrite the missed count is the number of tickets in scope whose fresh verdict is "missed" |
| TicketId.AssignTicketId | backend/src/models/Ticket.js:49-50 | a ticket that already has a number keeps it |
| TicketId.FormatTicketId | backend/src/models/Ticket.js:63 | the year, a dash and the zero-padded number, stated by `FormatShape` and `ParseFormat`: the number reads back from the id |
| TicketId.NextNumber | backend/src/models/Ticket.js:56-61 | the number after the latest ticket's, stated by `NextAfterFormatted` and `GeneratedNumbers`: n + 1 after n, whatever the year, so tickets are numbered 1, 2, 3, … |
| TicketId.ParseFormat | backend/src/models/Ticket.js:59-63 | the number written into an id reads back as the same number |
| TicketId.NextAfterFormatted | backend/src/models/Ticket.js:56-63 | after a ticket numbered n, whatever its year, the next is numbered n + 1 |
| TicketId.GeneratedNumbers | backend/src/models/Ticket.js:49-66 | the k-th ticket created in an empty collection is numbered k + 1 in its own year, so numbers never repeat across years |
| TicketId.FormatShape | backend/src/models/Ticket.js:63 | an id is the year, one dash, and at least five digits |
| TicketList.NewerFirstTotal | backend/src/controllers/ticketController.js:70 | the list order relates every pair of tickets and is transitive |
| TicketList.NewerFirstTellsApart | backend/src/controllers/ticketController.js:70 | with unique ids no two stored tickets tie in the list order |
| TicketList.Page | backend/src/controllers/ticketController.js:54-71 | the ticket page, stated by `PageFacts` and `HasMoreMeaning`: stored, filtered, scoped, below the cursor, at most `limit`, newest activity first |
| TicketList.NextCursor | backend/src/controllers/ticketController.js:101 | the cursor handed back, the last listed id; `IdCursorSkipsTickets` shows what paging by it skips |
| TicketList.PageFacts | backend/src/controllers/ticketController.js:54-71 | the page holds stored tickets passing the filter, only a member's own tickets, only ids below the cursor, at most `limit` of them, newest activity first |
| TicketList.HasMoreMeaning | backend/src/controllers/ticketController.js:101 | a page shorter than a positive limit is the whole selection; with `limit(0)`, `hasMore` holds only for an empty page |
| TicketList.UnknownStatusIgnored | backend/src/controllers/ticketController.js:54-56 | a status that is not one of the three leaves the page as without a status |
| TicketList.IdCursorSkipsTickets | backend/src/controllers/ticketController.js:60-62 | with three tickets whose activity order is the reverse of their id order, the second one-ticket page is empty, so two tickets are never listed |
| TicketList.KeysetSelectionFilters | backend/src/controllers/ticketController.js:68-70 | the selection after a key cursor is the full selection without the tickets up to the cursor's |
| TicketList.AfterIsSuffix | backend/src/controllers/ticketController.js:70 | in the full selection the tickets after the k-th are exactly those from position k on |
| TicketList.KeysetCursorContinues | backend/src/controllers/ticketController.js:60-71 | a cursor on the last ticket's (`lastMessageAt`, `_id`) key continues exactly where the page ended, so paging lists every selected ticket once, in order |
| MessageController.GetMessagesByTicket | backend/src/controllers/messageController.js:6-41 | 404 exactly for an unknown ticket, 403 exactly for a member on someone else's ticket, and a success only for a ticket in the caller's scope |
| MessageController.ReadMessagesFacts | backend/src/controllers/messageController.js:29-31 | a reader gets every stored message of the ticket, as many times as stored, oldest first, and nothing else |
| MessageController.AdminReadsEveryTicket | backend/src/controllers/messageController.js:19-22 | an admin may read the messages of every stored ticket |
| MessageController.SendMessage | backend/src/controllers/messageController.js:44-92 | 400 for blank text before any lookup, then 404, then 403, each without change; otherwise exactly one message from the caller with the trimmed text is appended and only that ticket's last activity becomes now |
| MessageController.StoreReply | backend/src/controllers/messageController.js:74-81 | the message is stored under the next id, only the ticket's last activity changes, and the store stays consistent |
| MessageController.ReplyKeepsConsistent | backend/src/controllers/messageController.js:74-81 | storing a reply and touching its ticket keeps the store consistent |
| MessageController.ReplyComesLast | backend/src/controllers/messageController.js:29-31 | a reply stamped no earlier than the ticket's messages is read back last, after the conversation as it was |
| SettingsController.PatchedFields | backend/src/controllers/settingsController.js:44-71 | a field the body defines takes its value (colours trimmed, an empty string included), every other field keeps its value, and the introduction form and the timer are merged key by key |
| SettingsController.ApplyPatch | backend/src/controllers/settingsController.js:44-71 | the assignments made one after another give the merged record |
| SettingsController.ApplyMessages | backend/src/controllers/settingsController.js:48-56 | each custom message is set exactly when the body defines it |
| SettingsController.ApplyTimer | backend/src/controllers/settingsController.js:67-71 | each part of the timer is set exactly when the body defines it |
| SettingsController.CreateIsPatchOfDefaults | backend/src/controllers/settingsController.js:41-42 | creating a record from a body gives the default record updated with that body, and an empty body gives the defaults |
| SettingsController.PatchKeepsUnnamed | backend/src/controllers/settingsController.js:44-71 | every field the body leaves out keeps its value, and an empty body changes nothing |
| SettingsController.PatchIdempotent | backend/src/controllers/settingsController.js:44-71 | sending the same update twice stores the same record as sending it once |
| SettingsController.PatchesCompose | backend/src/controllers/settingsController.js:44-71 | two updates in a row equal one update whose keys are the second's, then the first's |
| SettingsController.TimerMergesCompose | backend/src/controllers/settingsController.js:67-71 | merging two timer patches in turn equals merging their combination |
| SettingsController.IntroMergesCompose | backend/src/controllers/settingsController.js:58-63 | merging two introduction-form patches in turn equals merging their combination |
| SettingsController.GetChatbotSettings | backend/src/controllers/settingsController.js:6-22 | the stored record when there is one, unchanged; otherwise the defaults, which are then stored; nothing else changes |
| SettingsController.RefusedIsBadRequest | backend/src/controllers/settingsController.js:73 | a record the validators refuse answers 400 |
| SettingsController.UpdateChatbotSettings | backend/src/controllers/settingsController.js:27-84 | the new record is the body created over the defaults when none is stored, or the stored record updated; it is stored and sent back exactly when it passes validation, and otherwise the store keeps its record |
| SettingsController.ResetChatbotSettings | backend/src/controllers/settingsController.js:89-102 | afterwards the store holds exactly one record, the defaults, and that record is sent back |
| ChatbotSettingsModel.Defaults | backend/src/models/ChatbotSettings.js:5-85 | the defaults are colour #334755 on #EEEEEE, the two stock messages, and a timer of 0 h 10 min 0 s |
| ChatbotSettingsModel.ValidationMessages | backend/src/models/ChatbotSettings.js:19-85 | a save reports no validation message exactly when the record satisfies every length and range validator |
| ChatbotSettingsModel.LengthMessages | backend/src/models/ChatbotSettings.js:23-63 | no length message exactly when both custom messages have at most 200 characters and the welcome message at most 500 |
| ChatbotSettingsModel.TimerMessages | backend/src/models/ChatbotSettings.js:66-85 | no range message exactly when hours lie in 0..23 and minutes and seconds in 0..59 |
| ChatbotSettingsModel.DefaultsValid | backend/src/models/ChatbotSettings.js:5-85 | the defaults pass the validators and make a ten-minute timer |
| ChatbotSettingsModel.MissedChatTimeBounds | backend/src/models/ChatbotSettings.js:91-93 | a valid record's timer lies between 0 and one second short of a day, and is 0 exactly when all three parts are |
| ChatbotSettingsModel.MissedChatTimeDigits | backend/src/models/ChatbotSettings.js:91-93 | a valid timer's hours, minutes and seconds are read back from its total as mixed-radix digits |
| AnalyticsService.Swept | backend/src/services/analyticsService.js:42-56 | same length; every ticket the verdict picks is flagged, every other ticket is left as it is |
| AnalyticsService.SweepPass | backend/src/services/analyticsService.js:42-57 | the loop over the tickets yields the swept tickets |
| AnalyticsService.UpdateMissedChats | backend/src/services/analyticsService.js:24-64 | the stored tickets become the sweep with the settings' timer, and nothing else in the store changes |
| AnalyticsService.SweepNeverClears | backend/src/services/analyticsService.js:49-55 | the sweep changes only flags and only raises them; a ticket is flagged afterwards exactly when it was or the verdict picked it, and the flagged count grows by the unflagged tickets picked |
| AnalyticsService.SweptCount | backend/src/services/analyticsService.js:49-55 | after the sweep the flagged count is the old flagged count plus the unflagged tickets the verdict picked |
| AnalyticsService.SweepLeavesNothingToMark | backend/src/services/analyticsService.js:37-40 | a second sweep at the same instant finds no candidate to flag |
| AnalyticsService.GroupIds | backend/src/services/analyticsService.js:80-85 | one group per ticket id among the messages, each once |
| AnalyticsService.SumGaps | backend/src/services/analyticsService.js:88-98 | the loop adds up the gaps of the groups with at least two messages and counts those groups |
| AnalyticsService.GetAverageReplyTime | backend/src/services/analyticsService.js:67-110 | the count is the number of groups in the caller's scope with at least two messages; the average is their summed first gaps divided by the count and rounded to seconds, 0 without any |
| AnalyticsService.FirstGapNonNegative | backend/src/services/analyticsService.js:79-94 | the gap between a ticket's first two messages is never negative, the messages being in time order |
| AnalyticsService.TotalGapBounds | backend/src/services/analyticsService.js:91-98 | with every gap between lo and hi, the total lies between n·lo and n·hi for n gaps |
| AnalyticsService.TotalGapNonNegative | backend/src/services/analyticsService.js:91-98 | a total of non-negative gaps is non-negative |
| AnalyticsService.AverageWithinGaps | backend/src/services/analyticsService.js:100-101 | the reported average lies between the smallest and the largest gap, each rounded to seconds, and is never negative |
| AnalyticsService.AverageNeverNegative | backend/src/services/analyticsService.js:67-110 | the average reply time any caller gets from the store is never negative |
| AnalyticsService.CustomerFollowUpCounts | backend/src/services/analyticsService.js:93-94 | two customer messages with no staff reply still count as a "reply" whose time is the gap between them |
| AnalyticsService.BucketsCount | backend/src/services/analyticsService.js:132-151 | the map entry of a week holds the number of selected tickets created in that week |
| AnalyticsService.FormatSeries | backend/src/services/analyticsService.js:154-169 | one point per week, oldest first, labelled "Week 1" to "Week n", the j-th reading the entry of the week 7·(n − 1 − j) days before today |
| AnalyticsService.SeriesWeeksDistinct | backend/src/services/analyticsService.js:157-163 | the points of a series name different ISO weeks, so no ticket is counted twice |
| AnalyticsService.GetMissedChatsOverTime | backend/src/services/analyticsService.js:113-175 | the sweep runs first over every ticket; then point j counts the caller's flagged tickets created since the start date in the week of its day |
| AnalyticsService.MissedSeries | backend/src/services/analyticsService.js:119-169 | point j is labelled "Week j+1" and counts the caller's flagged tickets created since the start date in the week of its day |
| AnalyticsService.SeriesCounts | backend/src/services/analyticsService.js:146-169 | each formatted point counts the selected tickets of its week |
| AnalyticsService.GetResolvedTicketsData | backend/src/services/analyticsService.js:178-206 | `resolved` counts the resolved tickets in scope and `unresolved` the others in scope, together every ticket in scope; the percentage lies in 0..100, is 0 without tickets and is within half a point of the exact share |
| AnalyticsService.ResolvedDataStep | backend/src/services/analyticsService.js:186-193 | counted one ticket at a time, no tickets give nothing and one more adds one to `resolved` exactly when in scope and resolved, and to `unresolved` exactly when in scope and not resolved |
| AnalyticsService.PercentageBounds | backend/src/services/analyticsService.js:196 | a rounded share of a part of a total lies in 0..100 |
| AnalyticsService.GetTotalChats | backend/src/services/analyticsService.js:209-234 | the tickets in scope created between the two dates, both included, when both are given; every ticket in scope when either is missing |
| AnalyticsService.TotalChatsStep | backend/src/services/analyticsService.js:213-224 | counted one ticket at a time, no tickets give 0 and one more adds one exactly when it is in scope and created between the two ends, both included |
| AnalyticsService.TotalMatchesResolvedData | backend/src/services/analyticsService.js:209-234 | without a full range the total equals resolved + unresolved |
| AnalyticsService.WiderRangeCountsMore | backend/src/services/analyticsService.js:213-218 | widening the creation range never lowers the total |
| Calendar.WeekDay | backend/src/services/analyticsService.js:9 | the day of the week lies in 0..6 |
| Calendar.YearOf | backend/src/services/analyticsService.js:20 | the year of a day is the one whose January 1st and next January 1st enclose it |
| Calendar.YearOfUnique | backend/src/services/analyticsService.js:20 | a day belongs to exactly one year |
| Calendar.IsoDayNum | backend/src/services/analyticsService.js:9 | `getUTCDay() || 7` lies in 1..7 |
| Calendar.ThursdayFacts | backend/src/services/analyticsService.js:9-10 | the shifted day is a Thursday within three days of the day, in the same Monday-to-Sunday week |
| Calendar.IsoWeek | backend/src/services/analyticsService.js:7-13 | `getISOWeek`, stated by `IsoWeekRange` and `WeekOneHoldsFirstThursday`: 1..53, counted from the week holding the ISO year's first Thursday |
| Calendar.IsoWeekYear | backend/src/services/analyticsService.js:16-21 | `getISOWeekYear`, stated by `ThursdayFacts` and `KeyIffSameWeek`: the year of the week's Thursday, so (year, week) names exactly one Monday-to-Sunday week |
| Calendar.IsoWeekRange | backend/src/services/analyticsService.js:7-13 | week numbers lie in 1..53, and week w is the one whose Thursday falls in days 7(w−1) to 7w−1 of its ISO year |
| Calendar.WeekOneHoldsFirstThursday | backend/src/services/analyticsService.js:7-13 | week 1 is exactly the week holding the ISO year's first Thursday |
| Calendar.SameWeekSameKey | backend/src/services/analyticsService.js:7-21 | two days of one Monday-to-Sunday week get the same year-week key |
| Calendar.DistinctWeeksDistinctKeys | backend/src/services/analyticsService.js:7-21 | days of different weeks get different keys |
| Calendar.KeyIffSameWeek | backend/src/services/analyticsService.js:7-21 | two days share a key exactly when they lie in the same week |
| Calendar.WeeksApartDiffer | backend/src/services/analyticsService.js:157-163 | days a non-zero whole number of weeks apart get different keys |
| Calendar.Examples | backend/src/services/analyticsService.js:7-21 | 1970-01-01 is day 0, a Thursday; 2021-01-03 is in week 53 of 2020, 2024-12-30 in week 1 of 2025, 2024-01-01 in week 1 of 2024 |
| TeamTable.Initials | management-frontend/src/components/team/TeamTable.jsx:7-11 | one or two characters: the upper-cased first letters of first and last name, the last name's alone without a first name, "?" without either |
| TeamTable.Toggle | management-frontend/src/components/team/TeamTable.jsx:32-34 | clicking the header always switches the order |
| TeamTable.ByNameIsTotalPreorder | management-frontend/src/components/team/TeamTable.jsx:14-30 | in either order the comparator relates every pair of members and is transitive |
| TeamTable.NameLeTransitive | management-frontend/src/components/team/TeamTable.jsx:14-30 | the comparator is transitive in either order |
| TeamTable.SortedMembersOrdered | management-frontend/src/components/team/TeamTable.jsx:14-30 | the table shows every member exactly once, in name order |
| TeamTable.Reverse | management-frontend/src/components/team/TeamTable.jsx:19-29 | the reversal has the same length and reads the rows back to front |
| TeamTable.ReverseMultiset | management-frontend/src/components/team/TeamTable.jsx:19-29 | reversing keeps every row, as many times as it appears |
| TeamTable.ToggleReverses | management-frontend/src/components/team/TeamTable.jsx:14-34 | when no two members share a lower-cased full name, clicking the header shows the table reversed |
| TeamTable.ReverseSorted | management-frontend/src/components/team/TeamTable.jsx:19-29 | a table sorted one way, reversed, is sorted the other way |
| TeamTable.DistinctAntisymmetric | management-frontend/src/components/team/TeamTable.jsx:14-30 | with distinct names, two members each sorted before the other are the same member |
| TeamTable.KeysEqual | management-frontend/src/components/team/TeamTable.jsx:14-30 | two members each sorted before the other share a lower-cased first and last name |
| TeamTable.CanModify | management-frontend/src/components/team/TeamTable.jsx:37-53 | delete shows exactly for an admin viewer on a non-admin row; edit shows exactly on a non-admin row viewed by the admin or by its owner; delete never shows without edit |
| TeamTable.ListedIsFound | backend/src/controllers/userController.js:120 | a listed row is the stored user the server finds under its id |
| TeamTable.IdsIdentify | backend/src/controllers/userController.js:120 | stored users are told apart by their ids |
| TeamTable.DeleteOffered | management-frontend/src/components/team/TeamTable.jsx:37-53 | deleting a row whose delete button shows is never refused as unknown, as an admin, or as the viewer's own account |
| AddMemberModal.SplitName | management-frontend/src/components/team/AddMemberModal.jsx:44-46 | the first name has no space; with no last name it is the trimmed name, otherwise first name, a space and last name give the trimmed name back |
| AddMemberModal.SplitNameJoins | management-frontend/src/components/team/AddMemberModal.jsx:44-46 | the words of the trimmed name put back together with spaces are the trimmed name |
| AddMemberModal.SplitPrefilledName | management-frontend/src/components/team/AddMemberModal.jsx:16 | the prefilled "first last" splits back into the same first and last name when the first name is one word and the names are not padded |
| AddMemberModal.Form.constructor | management-frontend/src/components/team/AddMemberModal.jsx:5-11 | the form starts empty, role member, no error |
| AddMemberModal.Form.Open | management-frontend/src/components/team/AddMemberModal.jsx:13-30 | editing prefills the full name, email, phone and role; adding clears the form to a new member; the error clears either way |
| AddMemberModal.Form.Change | management-frontend/src/components/team/AddMemberModal.jsx:32-36 | exactly the one field changes and the error clears |
| AddMemberModal.Form.Submit | management-frontend/src/components/team/AddMemberModal.jsx:38-56 | without a name or email the error is set and nothing is saved; otherwise the payload carries the split name, email, phone, always the form's role, and the id when editing |
| AddMemberModal.Form.SubmitFixed | management-frontend/src/components/team/AddMemberModal.jsx:38-58 | as `Submit`, except that the role is sent only by an admin, who alone sees the role select |
| AddMemberModal.EditOf | management-frontend/src/pages/Team.jsx:56 | the edit body carries the names and phone, and the role exactly when the payload has one |
| AddMemberModal.NewMemberOf | management-frontend/src/pages/Team.jsx:69 | the new-member body carries the email and no password |
| AddMemberModal.AddedMemberStored | backend/src/controllers/userController.js:81-88 | a member added through the dialog is stored with the split name, the lower-cased email, the default password and the chosen role |
| AddMemberModal.SaveOwnRowRefused | backend/src/controllers/userController.js:141-148 | a member who edits their own row and saves is refused with 403 and the users stay as they were, because the body always names a role |
| AddMemberModal.SaveOwnRowAccepted | management-frontend/src/components/team/AddMemberModal.jsx:48-58 | with the corrected submission the same save succeeds, keeping the member's id and role and storing the new phone |
| ContactCenter.MapById | management-frontend/src/pages/ContactCenter.jsx:82-84 | same length; the tickets of that id become their update, every other ticket stays as it was |
| ContactCenter.MapByIdKeepsIds | management-frontend/src/pages/ContactCenter.jsx:82-84 | an update that keeps ids keeps every ticket's id in place |
| ContactCenter.MissedUpdatesCollapse | management-frontend/src/pages/ContactCenter.jsx:192-194 | two `isMissed` updates of one ticket leave only the second visible, and an id the list does not hold changes nothing |
| ContactCenter.WithSender | management-frontend/src/pages/ContactCenter.jsx:113-120 | a returned message always has a sender: its own when populated, the viewer otherwise |
| ContactCenter.Page.constructor | management-frontend/src/pages/ContactCenter.jsx:13-38 | the page starts with the fetched tickets (none when the fetch fails), no selection and no messages |
| ContactCenter.Page.SelectChat | management-frontend/src/pages/ContactCenter.jsx:68-99 | with a reply, its ticket is selected, only that ticket's `isMissed` is copied into the list, and its messages when sent replace the old ones; on failure the clicked ticket is selected with the fallback messages, or none |
| ContactCenter.Page.RefreshSelected | management-frontend/src/pages/ContactCenter.jsx:184-199 | the latest ticket becomes the selection and only its `isMissed` is copied into the list; a failed refresh changes nothing |
| ContactCenter.Page.SendMessage | management-frontend/src/pages/ContactCenter.jsx:101-137 | nothing without a selection or a reply; otherwise exactly the returned message is appended, only the selected ticket's `lastMessageAt` moves to now, and the selection is refreshed |
| ContactCenter.Page.Assign | management-frontend/src/pages/ContactCenter.jsx:139-161 | with a reply, the ticket of that id is replaced in the list and in the selection when selected, then refreshed; nothing changes on failure |
| ContactCenter.Page.StatusChange | management-frontend/src/pages/ContactCenter.jsx:163-181 | with a reply, the ticket of that id is replaced in the list and in the selection when selected; nothing changes on failure |
| ChatList.CanView | management-frontend/src/components/contactCenter/ChatList.jsx:20-28 | `canViewChat`, stated by `ViewAndInteract` and `ViewMatchesServerScope`: an admin sees every chat, a member only their own, as the ticket endpoint's scope |
| ChatList.CanInteract | management-frontend/src/components/contactCenter/ChatList.jsx:31-49 | `canInteractWithChat`, stated by `ViewAndInteract` and `InteractMatchesPage`: only the assignee, admin or not |
| ChatList.ViewAndInteract | management-frontend/src/components/contactCenter/ChatList.jsx:20-49 | whoever may answer a chat may see it; for a member seeing and answering coincide; an admin sees chats assigned to others without answering them |
| ChatList.ViewMatchesServerScope | management-frontend/src/components/contactCenter/ChatList.jsx:20-28 | the list shows a chat exactly when the ticket list endpoint would send it to the viewer |
| ChatList.InteractMatchesPage | management-frontend/src/components/contactCenter/ChatList.jsx:31-49 | the column's answer rule for the selected chat is the page's `canInteractWithTicket` |
| ChatList.Visible | management-frontend/src/components/contactCenter/ChatList.jsx:77-82 | a chat is rendered exactly when it is held and the viewer may see it |
| ChatList.AdminSeesEveryChat | management-frontend/src/components/contactCenter/ChatList.jsx:20-22 | an admin is shown every held chat, in the order held |
| ChatList.VisibleOfVisible | management-frontend/src/components/contactCenter/ChatList.jsx:77-82 | filtering the rendered list again shows the same chats |
| ChatList.Preview | management-frontend/src/components/contactCenter/ChatList.jsx:14-17 | never empty; an admin on someone else's chat reads whom it is assigned to ("team member" without a first name); otherwise the last message, or "No messages yet" |
| ChatList.InitialsAsWritten | management-frontend/src/components/contactCenter/ChatList.jsx:5-12 | "?" for a missing or empty name; the render throws exactly for a non-empty name of spaces only |
| ChatList.DoubleSpacedNameInitials | management-frontend/src/components/contactCenter/ChatList.jsx:7-9 | "Jane  Doe" gets the initials "JUNDEFINED" |
| ChatList.BlankNameThrows | management-frontend/src/components/contactCenter/ChatList.jsx:6-11 | a name of two spaces passes the empty-name test and then throws |
| ChatList.Initials | management-frontend/src/pages/Dashboard.jsx:120-125 | one or two characters; "?" for a missing or blank name; otherwise led by the upper-cased first character of the trimmed name |
| ChatList.InitialsAgreeOnWellSpacedNames | management-frontend/src/components/contactCenter/ChatList.jsx:5-12 | where the written rule neither throws nor prints "undefined", it agrees with the corrected one |
| ChatList.DoubleSpacedNameCorrected | management-frontend/src/pages/Dashboard.jsx:120-125 | the corrected rule gives "Jane  Doe" the initials "J" |
| ChatDetails.InitialsOf | management-frontend/src/components/contactCenter/ChatDetails.jsx:26-30 | one or two characters: the upper-cased first letters of the names present, two exactly when both are, "?" when neither is |
| ChatDetails.HeaderInitials | management-frontend/src/components/contactCenter/ChatDetails.jsx:78 | one or two characters, led by the upper-cased first character of a name that does not start with a space |
| ChatDetails.StatusChoice | management-frontend/src/components/contactCenter/ChatDetails.jsx:135 | "resolved" exactly for a resolved ticket, "unresolved" otherwise |
| ChatDetails.ServerReadsChoices | management-frontend/src/components/contactCenter/ChatDetails.jsx:67-70 | the server leaves a ticket as it is on "unresolved" and resolves it on "resolved" |
| ChatDetails.Panel.constructor | management-frontend/src/components/contactCenter/ChatDetails.jsx:13-16 | both dialogs closed, nothing pending, nothing called |
| ChatDetails.Panel.AssignChange | management-frontend/src/components/contactCenter/ChatDetails.jsx:32-37 | choosing someone other than the assignee opens the confirmation for them; choosing the assignee changes nothing; nothing is called |
| ChatDetails.Panel.ConfirmAssign | management-frontend/src/components/contactCenter/ChatDetails.jsx:39-43 | exactly one `onAssign` call with the pending member, and the dialog closes and clears |
| ChatDetails.Panel.CancelAssign | management-frontend/src/components/contactCenter/ChatDetails.jsx:146-153 | the dialog closes and nothing is called |
| ChatDetails.Panel.StatusChange | management-frontend/src/components/contactCenter/ChatDetails.jsx:45-52 | choosing "resolved" on an unresolved ticket opens the confirmation without a call; any other choice is passed on at once as one call |
| ChatDetails.Panel.ConfirmStatus | management-frontend/src/components/contactCenter/ChatDetails.jsx:54-58 | exactly one `onStatusChange` call with "resolved", and the dialog closes and clears |
| ChatDetails.Panel.CancelStatus | management-frontend/src/components/contactCenter/ChatDetails.jsx:155-162 | the dialog closes and nothing is called |
| ChatDetails.ReopenIsIgnored | management-frontend/src/components/contactCenter/ChatDetails.jsx:45-52 | choosing "unresolved" on a resolved ticket sends it at once and the server keeps the ticket resolved |
| ChatDetails.CloseTakesConfirmation | management-frontend/src/components/contactCenter/ChatDetails.jsx:45-58 | closing an open ticket sends nothing before the confirmation, then exactly one "resolved", which the server applies |
| ChatBox.SidesMatchStore | management-frontend/src/components/contactCenter/ChatBox.jsx:112-113 | a message is shown on the customer's side exactly when it was stored without a sender |
| ChatBox.FullNameOr | management-frontend/src/components/contactCenter/ChatBox.jsx:129-134 | the trimmed full name when it is not blank; never empty unless the fallback is |
| ChatBox.SenderName | management-frontend/src/components/contactCenter/ChatBox.jsx:126-134 | the customer's name on a customer message; the viewer's own name or "You" on theirs; the sender's name or "Staff" on another staff member's; never empty on a staff message |
| ChatBox.Dates | management-frontend/src/components/contactCenter/ChatBox.jsx:61-69 | the group keys are exactly the dates of the messages, each once |
| ChatBox.GroupByDate | management-frontend/src/components/contactCenter/ChatBox.jsx:61-69 | the keys are the dates in order of first appearance, each group holds exactly the messages of its date in their order, and the groups together hold every message once |
| ChatBox.GroupOfEachMessage | management-frontend/src/components/contactCenter/ChatBox.jsx:63-67 | every message is in the group of its own date and in no other |
| ChatBox.PaneOf | management-frontend/src/components/contactCenter/ChatBox.jsx:84-204 | the missed banner exactly on an unresolved missed ticket, the resolved banner exactly on a resolved one, the assigned notice for an admin who may not answer, the no-access notice for anyone else who may not, the input exactly where the viewer may answer an unresolved ticket |
| ChatBox.PaneIsCoherent | management-frontend/src/components/contactCenter/ChatBox.jsx:170-204 | never both banners; a viewer who may not answer sees exactly one notice and no input; one who may answer sees no notice |
| ChatBox.InputOnlyForAssignee | management-frontend/src/components/contactCenter/ChatBox.jsx:204 | on the Contact Center page the input shows exactly for the assignee of an unresolved ticket |
| MessageInput.Box.constructor | management-frontend/src/components/contactCenter/MessageInput.jsx:4-5 | an empty buffer and nothing sent |
| MessageInput.Box.Type | management-frontend/src/components/contactCenter/MessageInput.jsx:27 | typing replaces the buffer and sends nothing |
| MessageInput.Box.Submit | management-frontend/src/components/contactCenter/MessageInput.jsx:7-36 | exactly when the send button is enabled the trimmed text is sent once and the buffer cleared; otherwise nothing changes; every text sent is non-blank and trimmed |
| MessageInput.Box.KeyDown | management-frontend/src/components/contactCenter/MessageInput.jsx:15-20 | Enter without Shift submits; any other key changes nothing |
| MessageInput.DisabledNeverSends | management-frontend/src/components/contactCenter/MessageInput.jsx:9 | a disabled box sends nothing whatever is typed and submitted |
| MessageInput.SendsNonBlank | management-frontend/src/components/contactCenter/MessageInput.jsx:7-13 | typing and submitting texts in turn sends exactly the non-blank ones, trimmed, in order |
| MessageInput.NonBlankTrimmed | management-frontend/src/components/contactCenter/MessageInput.jsx:9-10 | never more texts than typed, each non-blank and already trimmed |
| DashboardPage.TabQuery | management-frontend/src/pages/Dashboard.jsx:46-50 | the fetch's query string, stated by `UnresolvedTabFetchesOnlyOpen` and `Dashboard.MoreQuery`: the tab's status and the cursor of a continued fetch |
| DashboardPage.UnresolvedTabFetchesOnlyOpen | management-frontend/src/pages/Dashboard.jsx:46-52 | the "unresolved" tab is sent only open tickets, so a ticket in progress never reaches it; the "resolved" tab is sent only resolved tickets |
| DashboardPage.PageHasStatus | backend/src/controllers/ticketController.js:54-56 | a page asked for one status holds only tickets of that status |
| DashboardPage.Displayed | management-frontend/src/pages/Dashboard.jsx:138-143 | `displayedTickets`, stated by `DisplayedFacts` and `TabsSplitHeld`: a tab's held tickets in order, the two tabs partitioning them |
| DashboardPage.DisplayedFacts | management-frontend/src/pages/Dashboard.jsx:138-143 | a tab shows, in the order held, exactly the held tickets of its kind |
| DashboardPage.TabsSplitHeld | management-frontend/src/pages/Dashboard.jsx:138-143 | the resolved and the unresolved tab together show every held ticket once |
| DashboardPage.UnresolvedTabShowsWhatItFetched | management-frontend/src/pages/Dashboard.jsx:138-143 | the "unresolved" tab's own filter hides nothing it fetched |
| DashboardPage.Dashboard.constructor | management-frontend/src/pages/Dashboard.jsx:15-23 | no tickets, no cursor, no notice and no error |
| DashboardPage.Dashboard.Fetch | management-frontend/src/pages/Dashboard.jsx:34-79 | a first fetch clears cursor, notices and error and replaces the list, with "not found" after an empty search and "no tickets" after an empty listing; a later fetch appends; a non-empty reply moves the cursor to its last ticket; a failure keeps the list and shows the server's message or "Failed to load tickets"; the cursor is always the last held ticket's id |
| DashboardPage.Dashboard.MoreQuery | management-frontend/src/pages/Dashboard.jsx:46-50 | an infinite-scroll fetch continues after the last ticket the dashboard holds |
| DashboardPage.Initials | management-frontend/src/pages/Dashboard.jsx:120-125 | one or two characters; "?" for a blank name; otherwise led by the upper-cased first character of the trimmed name |
| ChatbotSettingsPage.JsRem | management-frontend/src/pages/ChatbotSettings.jsx:15 | JavaScript's `%` by a positive number lies strictly between minus and plus that number |
| ChatbotSettingsPage.IdxToValue | management-frontend/src/pages/ChatbotSettings.jsx:15 | a row's value, stated by `IdxToValueIsMod`: the index modulo the wheel's size, always in range |
| ChatbotSettingsPage.IdxToValueIsMod | management-frontend/src/pages/ChatbotSettings.jsx:15 | the value a row shows is its index modulo the wheel's size, negative indices included, always in range |
| ChatbotSettingsPage.InitialShowsValue | management-frontend/src/pages/ChatbotSettings.jsx:23-30 | the row first selected shows the stored value |
| ChatbotSettingsPage.Recenter | management-frontend/src/pages/ChatbotSettings.jsx:45-57 | the wheel's recentring, stated by `RecenterKeepsValue`: the value shown is kept |
| ChatbotSettingsPage.RecenterKeepsValue | management-frontend/src/pages/ChatbotSettings.jsx:45-57 | recentring never changes the value shown, leaves a row away from the ends in place, and otherwise lands away from the ends |
| ChatbotSettingsPage.NudgeStepsAroundDial | management-frontend/src/pages/ChatbotSettings.jsx:88-99 | one row up or down moves the value by one around the dial, the largest value followed by 0 and 0 preceded by it |
| ChatbotSettingsPage.StaleReports | management-frontend/src/pages/ChatbotSettings.jsx:88-96 | one report per move |
| ChatbotSettingsPage.FreshReports | management-frontend/src/pages/ChatbotSettings.jsx:88-96 | one report per move |
| ChatbotSettingsPage.Wheel.constructor | management-frontend/src/pages/ChatbotSettings.jsx:22-32 | the wheel has `max + 1` values, starts on the middle copy's row for the value, with no delta and no report |
| ChatbotSettingsPage.Wheel.Nudge | management-frontend/src/pages/ChatbotSettings.jsx:88-99 | the wheel moves one row from the row given and reports that row's value |
| ChatbotSettingsPage.Wheel.OnWheel | management-frontend/src/pages/ChatbotSettings.jsx:101-112 | the leftover delta is the JavaScript remainder by 60; one report per full 60 units, every one the value one row from the rendered row, which is where the wheel ends |
| ChatbotSettingsPage.Wheel.OnWheelFixed | management-frontend/src/pages/ChatbotSettings.jsx:101-112 | the same leftover; one report per full 60 units, each one row further than the last, and the wheel ends that many rows away |
| ChatbotSettingsPage.WheelArithmetic | management-frontend/src/pages/ChatbotSettings.jsx:103-111 | the two loops run once per full threshold, in the delta's direction, and leave the remainder |
| ChatbotSettingsPage.StaleWheelRepeats | management-frontend/src/pages/ChatbotSettings.jsx:101-112 | with two moves or more in one event the second report repeats the first, so the written wheel differs from one-step-at-a-time moves |
| ChatbotSettingsPage.MinutesNotchOf120 | management-frontend/src/pages/ChatbotSettings.jsx:240-244 | a 120-unit notch on the minutes wheel is due two moves and reports the same minute twice |
| ChatbotSettingsPage.FreshReportsStep | management-frontend/src/pages/ChatbotSettings.jsx:88-112 | with the fix consecutive reports step by one around the dial and the last is the value of the row the wheel ends on |
| ChatbotSettingsPage.Loaded | management-frontend/src/pages/ChatbotSettings.jsx:174-203 | the state after loading, stated by `LoadShowsStored` and `LoadAgreesWithServerPatch`: a complete record shows exactly, and the merge is the server's patch |
| ChatbotSettingsPage.LoadShowsStored | management-frontend/src/pages/ChatbotSettings.jsx:174-203 | the page shows a complete stored record exactly, whatever it showed before; an empty reply leaves it as it was |
| ChatbotSettingsPage.LoadAgreesWithServerPatch | management-frontend/src/pages/ChatbotSettings.jsx:180-202 | the page merges a partial record the way the server applies an update, given colours without surrounding spaces |
| ChatbotSettingsPage.WheelsShowLoadedTimer | management-frontend/src/pages/ChatbotSettings.jsx:235-249 | the hours, minutes and seconds wheels start on the loaded timer's parts when they are in range |
| AnalyticsPage.ReplyTimeText | management-frontend/src/pages/Analytics.jsx:45-50 | `formatReplyTime`, the amount and unit of `ReadingOf`; `ReadingMonotone` and `HourBoundary` state its bands |
| AnalyticsPage.ReadingOf | management-frontend/src/pages/Analytics.jsx:45-50 | under a minute in seconds, zero included; under an hour in 1 to 60 minutes; otherwise in at least one hour; never more than half a unit from the time it stands for |
| AnalyticsPage.ReadingMonotone | management-frontend/src/pages/Analytics.jsx:45-50 | a longer average never reads as a shorter time, across the unit switches too |
| AnalyticsPage.HourBoundary | management-frontend/src/pages/Analytics.jsx:46-49 | 3570 seconds read "60 mins", 3600 read "1 hrs", 0 reads "0 secs" |
| AnalyticsPage.FiguresOf | management-frontend/src/pages/Analytics.jsx:29-36 | the reply's series, percentage and total are shown as sent, each absent value as the initial figures have it, and an empty reply shows the initial figures |
| AnalyticsPage.Page.constructor | management-frontend/src/pages/Analytics.jsx:12-18 | "0 secs", zeros and no series, loading |
| AnalyticsPage.Page.Load | management-frontend/src/pages/Analytics.jsx:24-43 | loading ends either way, and only a successful reply changes the figures |
| AnalyticsPage.ServerAverageReadsNonNegative | management-frontend/src/pages/Analytics.jsx:45-50 | the server's average, never negative, never reads as a negative time |
| SignupPage.Check | management-frontend/src/pages/Signup.jsx:47-65 | the form goes through exactly when every required field is filled, the confirmation matches, the password has six characters or more and the terms are accepted; the required-fields message shows exactly when a required field is empty, and each later message only when the checks before it pass |
| SignupPage.ButtonAndChecks | management-frontend/src/pages/Signup.jsx:47-89 | an enabled button never meets the required-fields message and a form that passes has its button enabled; an enabled button still lets a differing confirmation through to its check |
| SignupPage.BodyOf | management-frontend/src/pages/Signup.jsx:69-74 | the request carries the four fields as typed and no confirmation |
| SignupPage.OutcomeOf | management-frontend/src/context/AuthContext.jsx:61-81 | the context never reports success: a successful answer comes back as a failure without a message, because `success` is read from the HTTP response and not from its body; a refusal hands back the server's message, no answer "Signup failed. Please try again." |
| SignupPage.OutcomeOfFixed | management-frontend/src/context/AuthContext.jsx:38-59 | the outcome read from the body, as `login` reads it: success exactly on a successful answer, and the same failures otherwise |
| SignupPage.OutcomesDifferOnlyOnSuccess | management-frontend/src/context/AuthContext.jsx:61-81 | the written and the corrected outcome differ exactly on a successful answer, where the written one leads the page to show "Signup failed" |
| SignupPage.MessageShown | management-frontend/src/pages/Signup.jsx:76-79 | a failure shows its own message when it has one, otherwise "Signup failed"; the message is never empty |
| SignupPage.Page.constructor | management-frontend/src/pages/Signup.jsx:10-20 | empty fields, terms unticked, no error, not loading, signup offered |
| SignupPage.Page.CheckAvailability | management-frontend/src/pages/Signup.jsx:26-36 | the page offers signup as the server says, showing the notice when it does not; a failed request changes nothing |
| SignupPage.Page.Change | management-frontend/src/pages/Signup.jsx:38-42 | the fields change and the error clears |
| SignupPage.Page.SetAgree | management-frontend/src/pages/Signup.jsx:172-173 | only the terms box changes |
| SignupPage.Page.Finish | management-frontend/src/pages/Signup.jsx:76-79 | success moves on to the dashboard and keeps the error; a failure stays and shows its message; loading ends |
| SignupPage.Page.Submit | management-frontend/src/pages/Signup.jsx:44-86 | a form failing a check shows that check's message and sends nothing; otherwise the body is sent and the page never moves on: a created account shows "Signup failed", a refusal its message, no answer "Signup failed. Please try again." |
| SignupPage.Page.SubmitFixed | management-frontend/src/pages/Signup.jsx:44-86 | with the body read, a created account moves on to the dashboard without a new error, and the failures show as in `Submit` |
| SignupPage.FirstAdminSignsUp | management-frontend/src/pages/Signup.jsx:26-86 | with no admin stored and the email free, a form passing the checks creates the one admin account, yet the page stays on the form showing "Signup failed"; signup is then no longer offered and a second try is refused with 403 |
| SignupPage.FirstAdminSignsUpFixed | management-frontend/src/pages/Signup.jsx:26-86 | with the body read, the same signup creates the one admin and moves on to the dashboard without an error |
| SettingsPage.CheckProfile | management-frontend/src/pages/Settings.jsx:78-100 | the save goes through exactly when both trimmed names are non-blank and, when a password is being changed, the new one has six characters or more and matches its confirmation; the names message shows exactly for a blank name; without a password change no password message shows |
| SettingsPage.AnswerOf | management-frontend/src/pages/Settings.jsx:103-132 | a request counts as done exactly when the server answers with success |
| SettingsPage.ChatbotChange | management-frontend/src/pages/Settings.jsx:138-152 | a plain field is set and every other key kept; a dotted path sets that child inside its parent, keeping the parent's other children and every other key |
| SettingsPage.ChatbotChangeTwice | management-frontend/src/pages/Settings.jsx:138-152 | setting the same path twice keeps only the second value |
| SettingsPage.Page.constructor | management-frontend/src/pages/Settings.jsx:13-44 | empty profile form, no error, not saving, with the chatbot settings given |
| SettingsPage.Page.Prefill | management-frontend/src/pages/Settings.jsx:46-54 | the names and email become the account's, missing ones empty, and the password fields are kept |
| SettingsPage.Page.ProfileChange | management-frontend/src/pages/Settings.jsx:69-73 | the form changes and the error clears |
| SettingsPage.Page.Save | management-frontend/src/pages/Settings.jsx:75-136 | a failing check shows its message and sends nothing; otherwise the names go first, a refusal shows its message and stops; a new password goes next and once done logs the user out; without one the password fields clear |
| SettingsPage.Page.ChangeChatbot | management-frontend/src/pages/Settings.jsx:138-152 | the kept settings become the path-wise update and nothing else changes |
| SettingsPage.Failure | management-frontend/src/pages/Settings.jsx:132 | never empty: the server's message, or "Failed to update profile" |
| SettingsPage.SaveNewPassword | management-frontend/src/pages/Settings.jsx:75-121 | a valid save with a new password sends the names then the password, the store then holds both for the signed-in user, and the page logs out without an error |
| SettingsPage.StoreNamesAndPassword | backend/src/controllers/authController.js:125-186 | both requests succeed and the caller's stored user has the new names and password |
| ChatPopup.InitialMessageOf | management-frontend/src/components/chatbot/ChatPopup.jsx:46 | the first message typed when there is one, "New conversation started" when there is none |
| ChatPopup.LaterMessagesIgnored | management-frontend/src/components/chatbot/ChatPopup.jsx:46 | messages typed after the first never reach the ticket |
| ChatPopup.ReplyOf | management-frontend/src/components/chatbot/ChatPopup.jsx:50-56 | the reply carries a message exactly when the ticket was not created |
| ChatPopup.Popup.constructor | management-frontend/src/components/chatbot/ChatPopup.jsx:5-15 | empty form and input, no message kept, not submitting, submitted as the page says, no error |
| ChatPopup.Popup.InputChange | management-frontend/src/components/chatbot/ChatPopup.jsx:17-21 | the form fields change and the error clears |
| ChatPopup.Popup.Type | management-frontend/src/components/chatbot/ChatPopup.jsx:203 | typing replaces the input |
| ChatPopup.Popup.SendMessage | management-frontend/src/components/chatbot/ChatPopup.jsx:24-29 | before submission a non-blank input is kept trimmed and the input clears; otherwise nothing changes; every kept message is trimmed and non-blank |
| ChatPopup.Popup.FormSubmit | management-frontend/src/components/chatbot/ChatPopup.jsx:31-62 | an empty field shows "Please fill in all fields" and sends nothing; otherwise the body carries the form and the first message, the window is marked submitted only when the ticket was created, and a refusal or failure shows its message |
| ChatPopup.OnePromptAtATime | management-frontend/src/components/chatbot/ChatPopup.jsx:121-192 | at every moment exactly one of the start prompt, the introduction form and the thank-you bubble shows |
| ChatPopup.NewTicketOf | management-frontend/src/components/chatbot/ChatPopup.jsx:42-47 | the ticket endpoint reads the name, phone, email and first message as sent |
| ChatPopup.FirstMessageOpensTicket | backend/src/controllers/ticketController.js:182-193 | the ticket created from the popup's body starts with the visitor's first message, as the customer's, or with the placeholder when nothing was typed |
| ChatPopup.MessageThenIntroduction | management-frontend/src/components/chatbot/ChatPopup.jsx:24-62 | a visitor who says "hello" and introduces themselves sends a ticket body with that message and is thanked |

## Left out

- Express wiring, routers, CORS, helmet, compression and rate limiting. Only the routers' admin-only gates are kept, as preconditions.
- Token signing and verification and password hashing are libraries outside this model. Verification, `changedPasswordAfter` and `comparePassword` are parameters, and the token in the auth replies is left out. The User model (User.js) is not part of this model. Its schema lower-cases emails and keeps them unique, and the model applies both where the controllers rely on it: `AuthController.Signup` passes the email to `User.create` as typed, and the model stores it lower-cased and answers a taken email with the unique index's 400 through the error handler. `UserController.CreateUser` lower-cases and checks the email in the controller itself. Mongoose also applies the lower-casing to the filter of `findOne({ email })`, so `AuthController.Login` looks the email up lower-cased. Other schema defaults appear only where the controllers set them.
- `getAllUsers` and `getUserById` of userController.js are plain reads without a decision, and are not modelled.
- The analytics controller only runs the four services at once. `Promise.all` fan-outs, here and in `getAllTickets` and `getTicketStats`, are modelled one ticket after another. The racy read-then-write of the ticket number is modelled as a single step.
- Clocks are the parameter `now` (milliseconds). Calendar days are UTC day numbers, so local time zones and daylight saving are not modelled. Locale date formatting is the parameter `dateOf` in ChatBox.
- Floating point is not modelled. Reply times are whole seconds, `getMissedChatTimeInMinutes` is stated multiplied by 60, and the wheel's pixel scrolling, snapping and timers and the resolved chart's arc are left out.
- The ticket search's regular expression is the parameter `matches`, and the email format check is the parameter `validEmail`.
- `localeCompare` in the team table is read as code-unit order. JavaScript string lengths count UTF-16 units, while the model counts characters. `trim` does not treat the Unicode space separators as white space.
- Mongoose mechanics are not modelled: `populate` (an assignee that no longer exists), malformed ObjectIds, the 201 status of a creation, and aggregation syntax.
- `getAllTickets` falls back to an empty last message or a false flag when a read inside it fails. In the model every read there succeeds. `createTicket` ignores a failure to store the first message, and the model does not model that failure.
- Only the roles admin and member exist in the model.
- The sweep's `senderType` query is modelled for both settings of `strictQuery`; which one the server runs with is not known from its code.
- `TicketService.CheckMissedChats` takes the timer in seconds, 60 times the minutes the caller passes.
- Console logging, `alert` messages, CSS and rendering are not modelled. The signed-in user is a parameter of each page.
- Settings.jsx shows only its profile tab. Its chatbot settings handlers are modelled through `ChangeChatbot`, but its chatbot save is not: it is unreachable from the page as written.
- In `handleChatbotChange`, a dotted path whose parent is not an object starts the parent from an empty object.
- ChatbotSettings.jsx: the arrow keys call the same `nudge` as the wheel (`Wheel.Nudge`). Scroll-driven selection, the colour and text editors and the save button are not modelled; the save goes to the settings update endpoint (`SettingsController.UpdateChatbotSettings`).
- ChatPopup's `onFormSubmit` callback to the widget and its Enter key are not modelled separately; Enter runs the same send as the button.
- Signup.jsx hides the form while signing up is unavailable; the model keeps the flag `available` but not the rendering.
- The Team page's list reload after a save and the delete confirmation dialog are not modelled; the save's request bodies are (`AddMemberModal.EditOf`, `AddMemberModal.NewMemberOf`).
- Case folding is ASCII only. `Text.ToLower` and `Text.ToUpper` change the letters A to Z and a to z, where JavaScript's `toLowerCase` and `toUpperCase` fold every Unicode letter and may change the length ("ß" upper-cases to "SS"). So "élise" has the initial "é" in the model and "É" in the browser.
- Text.ToUpper: folds ASCII letters only, as above.
- Text.ToLower: folds ASCII letters only, so `UserController.CreateUser`, `AuthController.Signup` and `AuthController.Login` lower-case only ASCII letters of an email.
- TicketList.ListQuery: `limit` is a `nat`, so a negative or non-numeric `?limit=` (its `parseInt` gives a negative number or NaN) is not represented; the dashboard never sends a limit (`DashboardPage.TabQuery`), so no path of the model depends on it.
- TeamTable.Initials: the "one or two characters" and upper-cased first letter hold for ASCII names only; a non-ASCII letter keeps its case, and "ß" would give more characters in the browser.
- ChatDetails.InitialsOf: the same ASCII-only limit as `TeamTable.Initials`.
- ChatList.Initials: the same ASCII-only limit as `TeamTable.Initials`.
- DashboardPage.Initials: the same ASCII-only limit as `TeamTable.Initials`.
- ChatbotSettingsPage.StaleReports: its contract states only the number of reports; what they are is stated by `Wheel.OnWheel` and `StaleWheelRepeats`.
- ChatbotSettingsPage.FreshReports: its contract states only the number of reports; what they are is stated by `Wheel.OnWheelFixed` and `FreshReportsStep`.

## Findings

| source | as written | input that shows it | evidently intended | confidence | as-written member | corrected member |
|---|---|---|---|---|---|---|
| backend/src/services/analyticsService.js:44-47 | the sweep looks for a reply through `senderType`, a field messages do not have | with `strictQuery` off, a ticket answered by staff but older than the timer is flagged missed; with it on, a ticket holding only the customer's message is never flagged | a reply is a message of the ticket with a sender | not executed | MissedChat.SenderTypeFilterMisjudges | MissedChat.SenderIdRuleMarksUnanswered |
| backend/src/controllers/ticketController.js:60-70 | the list is ordered by last activity, but the next page's cursor keeps only ids below the last id shown | tickets 1, 2, 3 with activity 300, 200, 100 and limit 1: the first page is ticket 1, and the page after cursor 1 is empty, so tickets 2 and 3 are never listed | the next page continues the same order after the last ticket shown | not executed | TicketList.IdCursorSkipsTickets | TicketList.KeysetCursorContinues |
| management-frontend/src/pages/ChatbotSettings.jsx:88-112 | every `nudge` of one wheel event starts from the row of the last render | a 120-unit notch on the minutes wheel reports the same minute twice, and the wheel moves one row instead of two | each move starts where the previous one ended | not executed | ChatbotSettingsPage.Wheel.OnWheel | ChatbotSettingsPage.Wheel.OnWheelFixed |
| management-frontend/src/components/contactCenter/ChatList.jsx:5-12 | the initials take the first character of the first two parts of the split name, and of the first part alone otherwise; ChatBox.jsx:41-48 copies the rule for the header and staff avatars | "Jane  Doe" gives "JUNDEFINED"; a name of two spaces throws during rendering | the dashboard's rule, which skips empty parts and gives "?" for a blank name | not executed | ChatList.InitialsAsWritten | ChatList.Initials |
| management-frontend/src/context/AuthContext.jsx:61-81 | `signup` tests `success` on the HTTP response returned by `authService.signup` instead of on its body, so it never reports success | a first sign-up with a free email: the server creates the admin (authController.js:21-42), but the page stays on the form showing "Signup failed", and a second try is refused because an admin now exists | read the body, as `login` does, and move on to the dashboard | not executed | SignupPage.FirstAdminSignsUp | SignupPage.FirstAdminSignsUpFixed |
| management-frontend/src/components/team/AddMemberModal.jsx:48-55 | the save body always carries the form's role | a member who edits their own phone number is refused with 403 "Not authorized to change role" (userController.js:141-148) | the role is sent only by an admin, who alone sees the role field | not executed | AddMemberModal.Form.Submit | AddMemberModal.Form.SubmitFixed |

Each finding is checked by the lemmas beside its members:
- `MissedChat.SenderTypeFilterMisjudges` shows both wrong verdicts. `SenderIdRuleMarksUnanswered` states the intended rule.
- `TicketList.IdCursorSkipsTickets` shows the skipped tickets. `KeysetCursorContinues` proves that a cursor on (activity, id) continues the list exactly.
- `StaleWheelRepeats` and `MinutesNotchOf120` show the repeated report. `FreshReportsStep` shows the corrected wheel stepping by one.
- `DoubleSpacedNameInitials` and `BlankNameThrows` show the two bad inputs. `InitialsAgreeOnWellSpacedNames` and `DoubleSpacedNameCorrected` relate the two rules.
- `AddMemberModal.SaveOwnRowRefused` and `SaveOwnRowAccepted` run the save against `UserController.UpdateUser`.
- `SignupPage.OutcomesDifferOnlyOnSuccess` shows where the two readings of the sign-up answer part. `FirstAdminSignsUp` runs the written page against `AuthController.Signup`, and `FirstAdminSignsUpFixed` the corrected one.
- ChatBox.jsx renders the same initials rule as ChatList.jsx, so `DoubleSpacedNameInitials` and `BlankNameThrows` describe its avatars too.

Apart from the corrected members, the model keeps the code as written: the ticket list pages by id, and the wheel, the chat list, the team dialog and the sign-up page behave as the source does.
