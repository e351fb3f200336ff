# Smart Expense Splitter — a verified model of its core

This project models the core of Smart Expense Splitter in Dafny. Smart Expense Splitter is an application for sharing expenses within groups. It has a Spring server and a React client. Money is modelled as integer cents, because the server stores amounts as `BigDecimal` with scale 2.

What is modelled, module by module:

- **Netting** and **SettlementService**: the settlement calculation of `SettlementServiceImpl`.
  - `NetBalances` folds a group's expenses into a net balance per user. A user's balance is what they paid minus the shares they owe.
  - `Creditors` and `Debtors` select and sort the strictly positive and strictly negative balances.
  - `Greedy` is the two-index matching loop. It has the loop's invariant and the termination measure `i + j`.
  - `CalculateSettlements` replaces the group's stored settlements with the plan. `GetSettlementsForUser` and `MarkSettlementAsPaid` are the other two service operations.
- **Domain**: the repositories as sequences held by one `Database` object, and the consistency of their foreign keys.
- **ExpenseService**: `addExpense` and `deleteExpense`.
  - The share is rounded half-up to the cent.
  - There is one participant record per id, with repeats kept.
  - An empty participant list fails with a division error.
- **GroupService**: `createGroup`, `addUserToGroup`, `getGroupsByUser` and `getGroupById` over the membership table. `addUserToGroup` runs its checks in a fixed order.
- **GroupController**: the HTTP status and body that `addUserToGroup` answers for each kind of exception.
- **AddMemberModal**: the client dialog that adds members by email.
  - The email syntax check is a character scanner, proved equal to a description of the regular expression's language.
  - It covers the pending list, the per-request error messages, and the folding of the per-email outcomes into full success, partial success or total failure.
- **AuthContext**: the client session as a class over `user`, `isAuthenticated`, `loading` and the two storage keys `token` and `user`. The invariant is that the session is authenticated only while both keys are stored.
- **SettlementsPage** and **ExpensesPage**: the pages' pure filters, totals and groupings, and the request the expenses page builds.
- **AddExpenseModal**, **RegisterPage** and **CreateGroupModal**: the ordered form validators and the form state of the dialogs.
- **Text** and **Seqs**: string trimming, whitespace, number formatting, filtering and subsequences.

Inputs from outside the model become parameters:

- the server's answers and the outcome of each request;
- the result of parsing the cached user;
- today's date;
- the email of the authenticated user.

Callbacks into a parent component (`onClose`, `onMemberAdded`, `navigate`) are counters on the component's object.

Behaviour of the code that the model keeps as written:

- `getSettlementsForUser` recalculates each of the user's groups that has an expense before listing it. That replaces the group's stored settlements with a fresh unpaid plan, so fetching a user's settlements undoes every earlier `markSettlementAsPaid` in those groups. `GetSettlementsForUser` states this in its contract.
- `checkAuthStatus` has no guard against a stale answer. A verification that completes after `logout` installs the server's user again, leaving a user who is not authenticated. `LateVerificationAfterLogout` exhibits this.
- `validateForm` of the add-expense dialog, taken alone, accepts an amount that is not a number: `parseFloat` gives `NaN`, and `NaN <= 0` is false. The dialog's amount field is a number input, which only ever holds an empty value or a number, so through the dialog that case does not arise.
- A member record of the fetched group that has no nested `user` object contributes its own id as a participant id.
- The create-group dialog checks the trimmed name but sends the name untrimmed.
- Both pages that own these dialogs catch the error of their submit handler themselves. So, as wired, the dialogs' own failure messages ('Failed to add expense…', 'Failed to create group…') are never shown, and the dialogs reset after a failed request too. The dialogs are modelled on their own, with the failure path kept.
- The shares of an expense need not add up to its amount. With n participants they can differ from it by up to n/2 cents.

## Model

| member | source | states |
|---|---|---|
| Netting.NetBalances | src/main/java/com/expensetracker/smartsplitter/service/impl/SettlementServiceImpl.java:44-66 | the nested loops build a map whose keys are exactly the users who paid for or share an expense, in first-insertion order, each mapped to what they paid minus the shares they owe |
| Netting.UsersSpec | src/main/java/com/expensetracker/smartsplitter/service/impl/SettlementServiceImpl.java:49-66 | the fold inserts each user once, and the keys are exactly the users involved in some expense |
| Netting.AddParticipantKeysSpec | src/main/java/com/expensetracker/smartsplitter/service/impl/SettlementServiceImpl.java:55-62 | the inner loop adds each participant to the key order once and keeps the keys already there |
| Netting.UninvolvedNetZero | src/main/java/com/expensetracker/smartsplitter/service/impl/SettlementServiceImpl.java:49-66 | a user who neither pays nor shares has balance zero, so no settlement can involve them |
| Netting.NetTableFromTotals | src/main/java/com/expensetracker/smartsplitter/service/impl/SettlementServiceImpl.java:44-66 | a map keyed by the involved users whose values are the paid-minus-owed totals is the fold's table |
| Netting.Insert | src/main/java/com/expensetracker/smartsplitter/service/impl/SettlementServiceImpl.java:74 | inserting into a sorted list keeps it sorted and adds exactly that entry |
| Netting.Sort | src/main/java/com/expensetracker/smartsplitter/service/impl/SettlementServiceImpl.java:72-80 | the sort returns a permutation of its input ordered by balance, descending or ascending |
| Netting.Entries | src/main/java/com/expensetracker/smartsplitter/service/impl/SettlementServiceImpl.java:72 | the entry list holds each key of the map with its balance, in key order |
| Netting.EntriesMembers | src/main/java/com/expensetracker/smartsplitter/service/impl/SettlementServiceImpl.java:72 | an entry is listed exactly when it pairs a key with that key's balance |
| Netting.EntriesNoDuplicates | src/main/java/com/expensetracker/smartsplitter/service/impl/SettlementServiceImpl.java:72 | the entry list has no repeated entry |
| Netting.SelectionSpec | src/main/java/com/expensetracker/smartsplitter/service/impl/SettlementServiceImpl.java:72-80 | a sorted selection of the entries holds exactly the entries that pass the filter, one per user |
| Netting.Creditors | src/main/java/com/expensetracker/smartsplitter/service/impl/SettlementServiceImpl.java:72-75 | `positive` holds exactly the users with a strictly positive balance, once each, largest balance first |
| Netting.Debtors | src/main/java/com/expensetracker/smartsplitter/service/impl/SettlementServiceImpl.java:77-80 | `negative` holds exactly the users with a strictly negative balance, once each, most negative first |
| Netting.GreedyInit | src/main/java/com/expensetracker/smartsplitter/service/impl/SettlementServiceImpl.java:82 | the matching loop's invariant holds with both indices at 0 and no transfer |
| Netting.DebtorsStep | src/main/java/com/expensetracker/smartsplitter/service/impl/SettlementServiceImpl.java:102-106 | a round keeps the debtor side of the invariant: what each debtor paid so far plus what remains is its debt |
| Netting.CreditorsStep | src/main/java/com/expensetracker/smartsplitter/service/impl/SettlementServiceImpl.java:102-109 | a round keeps the creditor side of the invariant, symmetrically |
| Netting.GreedyStep | src/main/java/com/expensetracker/smartsplitter/service/impl/SettlementServiceImpl.java:83-110 | a round emits min(debit, credit) from the current debtor to the current creditor, keeps the invariant and advances `i`, `j` or both |
| Netting.GreedyExit | src/main/java/com/expensetracker/smartsplitter/service/impl/SettlementServiceImpl.java:83-110 | when the loop stops one side is paid off, nobody paid or received more than their balance, at most |debtors|+|creditors|-1 transfers were made and the total moved is min(total debt, total credit) |
| Netting.Greedy | src/main/java/com/expensetracker/smartsplitter/service/impl/SettlementServiceImpl.java:82-110 | every transfer is positive and goes from a debtor to a different creditor; no debtor overpays and no creditor is overpaid; one side is settled in full; the total moved is min(total debt, total credit); at most |debtors|+|creditors|-1 transfers |
| SettlementService.DebtorsOfSpec | src/main/java/com/expensetracker/smartsplitter/service/impl/SettlementServiceImpl.java:77-80 | the debtor list of a group is exactly the users with a negative net balance, each with that balance |
| SettlementService.CreditorsOfSpec | src/main/java/com/expensetracker/smartsplitter/service/impl/SettlementServiceImpl.java:72-75 | the creditor list of a group is exactly the users with a positive net balance, each with that balance |
| SettlementService.PlanInput | src/main/java/com/expensetracker/smartsplitter/service/impl/SettlementServiceImpl.java:72-83 | the two lists have the signs, the order and the one-entry-per-user shape the loop needs, and no user is on both |
| SettlementService.TransferEnds | src/main/java/com/expensetracker/smartsplitter/service/impl/SettlementServiceImpl.java:84-99 | each emitted settlement has a positive amount and goes from a user who owes to a user who is owed |
| SettlementService.DebtorFlows | src/main/java/com/expensetracker/smartsplitter/service/impl/SettlementServiceImpl.java:102-106 | no user pays more than they owe, users who owe nothing pay nothing, and a fully settled debtor side means every debt is paid |
| SettlementService.CreditorFlows | src/main/java/com/expensetracker/smartsplitter/service/impl/SettlementServiceImpl.java:102-109 | no user receives more than they are owed, users owed nothing receive nothing, and a fully settled creditor side means every credit is met |
| SettlementService.PlanSpec | src/main/java/com/expensetracker/smartsplitter/service/impl/SettlementServiceImpl.java:82-110 | the loop's list-level guarantees give the user-level plan property `SettlesBalances` |
| SettlementService.PlanTransfers | src/main/java/com/expensetracker/smartsplitter/service/impl/SettlementServiceImpl.java:44-110 | the transfers computed from a group's expenses settle the balances in the sense of `SettlesBalances` |
| SettlementService.TransferUsersExist | src/main/java/com/expensetracker/smartsplitter/service/impl/SettlementServiceImpl.java:93-94 | a user with a non-zero balance is a stored user |
| SettlementService.PlanUsersExist | src/main/java/com/expensetracker/smartsplitter/service/impl/SettlementServiceImpl.java:93-94 | both `findById(...).get()` lookups of every transfer succeed |
| SettlementService.Recorded | src/main/java/com/expensetracker/smartsplitter/service/impl/SettlementServiceImpl.java:92-97 | the settlements built for the transfers carry the same payer, payee and amount, the group, fresh consecutive ids and `paid` false |
| SettlementService.ReplaceKeepsConsistent | src/main/java/com/expensetracker/smartsplitter/service/impl/SettlementServiceImpl.java:112-119 | deleting a group's settlements and saving new ones with fresh ids keeps the tables consistent |
| SettlementService.ReplaceGroupSettlements | src/main/java/com/expensetracker/smartsplitter/service/impl/SettlementServiceImpl.java:112-119 | afterwards the stored settlements of the group are exactly the new ones and those of every other group are untouched |
| SettlementService.SaveGroupSettlements | src/main/java/com/expensetracker/smartsplitter/service/impl/SettlementServiceImpl.java:112-119 | the group's old settlements are removed, the new ones appended with fresh ids, and no other table changes |
| SettlementService.CalculateSettlements | src/main/java/com/expensetracker/smartsplitter/service/impl/SettlementServiceImpl.java:39-122 | an unknown group gives "Group not found" and changes nothing; otherwise the returned settlements settle the group's balances, involve stored users and replace exactly the group's stored settlements |
| SettlementService.MembershipGroupsDistinct | src/main/java/com/expensetracker/smartsplitter/service/impl/SettlementServiceImpl.java:128 | the user's memberships, in table order, name distinct groups |
| SettlementService.CollectSkipped | src/main/java/com/expensetracker/smartsplitter/service/impl/SettlementServiceImpl.java:136-138 | a group without expenses contributes nothing and keeps the loop invariant |
| SettlementService.CollectRecalculated | src/main/java/com/expensetracker/smartsplitter/service/impl/SettlementServiceImpl.java:138-148 | recalculating a group and adding the user's settlements of that group keeps the loop invariant |
| SettlementService.ReportableAmongMine | src/main/java/com/expensetracker/smartsplitter/service/impl/SettlementServiceImpl.java:128-133 | every reportable settlement lies in a group named by one of the user's memberships |
| SettlementService.MemberAmongMine | src/main/java/com/expensetracker/smartsplitter/service/impl/SettlementServiceImpl.java:128 | a group the user belongs to is named by one of the memberships the loop visits |
| SettlementService.ListedFrame | src/main/java/com/expensetracker/smartsplitter/service/impl/SettlementServiceImpl.java:143-148 | the listing reads the table only through the rows of the listed groups |
| SettlementService.RefreshSkipped | src/main/java/com/expensetracker/smartsplitter/service/impl/SettlementServiceImpl.java:136-137 | a group without expenses is skipped: the table is unchanged and nothing is listed for it |
| SettlementService.OtherGroupKept | src/main/java/com/expensetracker/smartsplitter/service/impl/SettlementServiceImpl.java:112-119 | recalculating one group leaves the rows of every other group as they were |
| SettlementService.RecalculatedPlans | src/main/java/com/expensetracker/smartsplitter/service/impl/SettlementServiceImpl.java:138-140 | recalculating the next group gives it a fresh unpaid plan that settles its balances, and keeps the plans of the groups before it |
| SettlementService.RecalculatedUntouched | src/main/java/com/expensetracker/smartsplitter/service/impl/SettlementServiceImpl.java:138-140 | recalculating a group leaves the rows of the groups not recalculated for the user as they were, in order |
| SettlementService.RecalculatedListing | src/main/java/com/expensetracker/smartsplitter/service/impl/SettlementServiceImpl.java:138-148 | recalculating the next group leaves the listing of the earlier groups as it was and appends the group's rows that involve the user |
| SettlementService.RefreshRecalculated | src/main/java/com/expensetracker/smartsplitter/service/impl/SettlementServiceImpl.java:138-148 | one recalculating round keeps the table's state (fresh plans for the visited groups, untouched rows kept) and extends the listing |
| SettlementService.CollectGroup | src/main/java/com/expensetracker/smartsplitter/service/impl/SettlementServiceImpl.java:131-148 | one round of the loop for the next membership keeps the collection, the table's state and the listing in membership order |
| SettlementService.GetSettlementsForUser | src/main/java/com/expensetracker/smartsplitter/service/impl/SettlementServiceImpl.java:126-153 | the result lists, group by group in membership order, the settlements involving the user of each of the user's groups that has an expense; those groups' rows are replaced by fresh unpaid plans that settle their balances, so earlier payments are forgotten; the rows of every other group are kept in order |
| SettlementService.MarkPaid | src/main/java/com/expensetracker/smartsplitter/service/impl/SettlementServiceImpl.java:160 | the settlement with the id is paid afterwards and every other field and row is unchanged |
| SettlementService.MarkPaidIdempotent | src/main/java/com/expensetracker/smartsplitter/service/impl/SettlementServiceImpl.java:160 | marking a settlement paid twice is marking it once |
| SettlementService.MarkSettlementAsPaid | src/main/java/com/expensetracker/smartsplitter/service/impl/SettlementServiceImpl.java:155-162 | an unknown id gives "Settlement not found" and changes nothing; otherwise only that settlement's flag changes |
| ExpenseService.HalfUpDiv | src/main/java/com/expensetracker/smartsplitter/service/impl/ExpenseServiceImpl.java:41 | the share is the quotient rounded to the cent with ties away from zero: within half a cent of amount/n |
| ExpenseService.HalfUpDivUnique | src/main/java/com/expensetracker/smartsplitter/service/impl/ExpenseServiceImpl.java:41 | no other value meets the rounding bound, so the share is determined by it |
| ExpenseService.ShareResidueReachesHalf | src/main/java/com/expensetracker/smartsplitter/service/impl/ExpenseServiceImpl.java:41-51 | n shares can differ from the amount by up to n/2 cents, and do for an even n |
| ExpenseService.BuildParticipants | src/main/java/com/expensetracker/smartsplitter/service/impl/ExpenseServiceImpl.java:43-53 | one record per id in list order with repeats kept and the same share, or "User not found: <id>" for the first unknown id |
| ExpenseService.ErrorIgnoresShare | src/main/java/com/expensetracker/smartsplitter/service/impl/ExpenseServiceImpl.java:43-53 | which participant lookup fails does not depend on the share |
| ExpenseService.AppendExpenseKeepsConsistent | src/main/java/com/expensetracker/smartsplitter/service/impl/ExpenseServiceImpl.java:55-56 | saving an expense with a fresh id whose users exist keeps the tables consistent |
| ExpenseService.AddExpense | src/main/java/com/expensetracker/smartsplitter/service/impl/ExpenseServiceImpl.java:29-57 | "Group not found" before "Payer not found"; an empty participant list fails with the division error; otherwise the saved expense has the group, the payer and the half-up share for every participant, and nothing is saved on an error |
| ExpenseService.RemoveExpenseKeepsConsistent | src/main/java/com/expensetracker/smartsplitter/service/impl/ExpenseServiceImpl.java:75 | removing an expense keeps the tables consistent |
| ExpenseService.DeleteExpense | src/main/java/com/expensetracker/smartsplitter/service/impl/ExpenseServiceImpl.java:70-76 | an unknown id gives "Expense not found with id: <id>" and changes nothing; otherwise exactly that expense is removed |
| Domain.GroupOfMembershipExists | src/main/java/com/expensetracker/smartsplitter/service/impl/GroupServiceImpl.java:93 | the group of a stored membership is found by id |
| GroupService.GroupById | src/main/java/com/expensetracker/smartsplitter/service/impl/GroupServiceImpl.java:110-112 | the lookup fails with "Group not found" exactly when no group has the id, else returns a stored group with that id |
| GroupService.GroupByIdUnique | src/main/java/com/expensetracker/smartsplitter/service/impl/GroupServiceImpl.java:110-112 | with unique ids the lookup returns the one group with that id |
| GroupService.GroupsOfUser | src/main/java/com/expensetracker/smartsplitter/service/impl/GroupServiceImpl.java:89-105 | one group per membership of the user, in membership order |
| GroupService.GroupsOfUserSpec | src/main/java/com/expensetracker/smartsplitter/service/impl/GroupServiceImpl.java:89-105 | a group is listed exactly when the user is a member of it, and no group is listed twice |
| GroupService.ListedGroupIsJoined | src/main/java/com/expensetracker/smartsplitter/service/impl/GroupServiceImpl.java:89-105 | every listed group is a stored group the user belongs to |
| GroupService.JoinedGroupIsListed | src/main/java/com/expensetracker/smartsplitter/service/impl/GroupServiceImpl.java:89-105 | every stored group the user belongs to is listed |
| GroupService.ListedGroupsDistinct | src/main/java/com/expensetracker/smartsplitter/service/impl/GroupServiceImpl.java:89-105 | no group is listed twice when memberships do not repeat |
| GroupService.CreateKeepsConsistent | src/main/java/com/expensetracker/smartsplitter/service/impl/GroupServiceImpl.java:39-46 | saving a group and its creator's membership keeps the tables consistent |
| GroupService.CreateGroup | src/main/java/com/expensetracker/smartsplitter/service/impl/GroupServiceImpl.java:32-49 | an unknown creator gives "Creator not found" and saves nothing; otherwise the new group is created by the creator and the creator is its member |
| GroupService.JoinKeepsConsistent | src/main/java/com/expensetracker/smartsplitter/service/impl/GroupServiceImpl.java:81-85 | saving a new membership for a stored group keeps the tables consistent, with no repeated pair |
| GroupService.Admission | src/main/java/com/expensetracker/smartsplitter/service/impl/GroupServiceImpl.java:54-78 | the checks run in order (requester, user, group, permission, existing membership) and the first failing one decides the exception |
| GroupService.AddUserToGroup | src/main/java/com/expensetracker/smartsplitter/service/impl/GroupServiceImpl.java:52-86 | fails with the first failing check and changes nothing, or adds exactly the one membership (user, group) |
| GroupService.AddedUserIsMember | src/main/java/com/expensetracker/smartsplitter/service/impl/GroupServiceImpl.java:75-85 | after a successful add the user is a member, so the same request repeated fails with the membership error |
| GroupController.AddUserResponse | src/main/java/com/expensetracker/smartsplitter/controller/GroupController.java:34-47 | 200 with the success text exactly on success; IllegalArgument gives 400 "Invalid request: ", Security 403 "Access denied: ", a runtime or arithmetic exception the runtime response, a checked exception 500 "Internal server error: "; every error body ends with the message |
| GroupController.RuntimeResponse | src/main/java/com/expensetracker/smartsplitter/controller/GroupController.java:40-44 | 404 "Resource not found: " exactly when the message contains "not found", otherwise 400 "Error: " |
| GroupController.AddUserStatuses | src/main/java/com/expensetracker/smartsplitter/controller/GroupController.java:36-39 | the errors of the service's checks never give 500, and the permission and membership errors give their 403 and 400 bodies |
| GroupController.NotFoundStatuses | src/main/java/com/expensetracker/smartsplitter/controller/GroupController.java:40-42 | a missing requester, user or group gives 404 with the service's message |
| AddMemberModal.ScanDomainSpec | frontend/src/components/groups/AddMemberModal.jsx:41 | the domain scan accepts exactly a rest without whitespace or @ that has a dot neither first nor last |
| AddMemberModal.ScanLocalSpec | frontend/src/components/groups/AddMemberModal.jsx:41 | the left-to-right scan accepts exactly the strings of the form local@domain.tld with no whitespace and no second @ |
| AddMemberModal.IsValidEmail | frontend/src/components/groups/AddMemberModal.jsx:40-43 | valid exactly when the pattern `^[^\s@]+@[^\s@]+\.[^\s@]+$` matches: one or more characters other than white space and @, an @, one or more such characters, a dot, one or more such characters |
| AddMemberModal.ScanMatchesPattern | frontend/src/components/groups/AddMemberModal.jsx:40-43 | the left-to-right scanner accepts a string exactly when the pattern `^[^\s@]+@[^\s@]+\.[^\s@]+$` matches it |
| AddMemberModal.ValidEmailShape | frontend/src/components/groups/AddMemberModal.jsx:40-43 | valid exactly when there is no whitespace, exactly one @ with something before it, and a dot after it that is neither the first nor the last character of the domain |
| Text.Trim | frontend/src/components/groups/AddMemberModal.jsx:25 | the result is a slice of the input with no leading or trailing whitespace and only whitespace cut away |
| AddMemberModal.StripTrailingSeparators | frontend/src/components/groups/AddMemberModal.jsx:25 | the result is a prefix of the input, does not end in a comma or whitespace, and only commas and whitespace were cut |
| AddMemberModal.Candidate | frontend/src/components/groups/AddMemberModal.jsx:25 | the candidate never begins with whitespace and never ends with a comma or whitespace |
| AddMemberModal.AddEmail | frontend/src/components/groups/AddMemberModal.jsx:24-38 | a new valid address is appended and input and error cleared; a repeat sets "already added"; an invalid candidate sets "enter a valid email"; an empty one changes nothing; a valid list stays valid |
| AddMemberModal.BlankInputAddsNothing | frontend/src/components/groups/AddMemberModal.jsx:25-37 | input that is blank once trimmed changes nothing |
| AddMemberModal.NoticeText | frontend/src/components/groups/AddMemberModal.jsx:33-123 | the error text is empty exactly when no notice is set: every notice (already added, invalid address, empty batch, partial and total failure) has words |
| AddMemberModal.ErrorMessage | frontend/src/components/groups/AddMemberModal.jsx:86-95 | 404 maps to the register hint, 400 to the body or the "already in the group" text, another status with a body to that body, otherwise to the error's own message |
| AddMemberModal.ServerRefusalShown | frontend/src/components/groups/AddMemberModal.jsx:86-95 | each refusal of the add-user endpoint is shown as its body, except 404 which shows the register hint |
| AddMemberModal.Results | frontend/src/components/groups/AddMemberModal.jsx:67-100 | one record per address of the batch, in batch order, successful exactly when its request succeeded and carrying the mapped message when it failed |
| AddMemberModal.SplitCounts | frontend/src/components/groups/AddMemberModal.jsx:105-108 | some record is successful exactly when some request succeeded; no record failed exactly when all succeeded |
| AddMemberModal.EmailsOfFilterSubsequence | frontend/src/components/groups/AddMemberModal.jsx:118 | the addresses of any selection of the records keep batch order |
| AddMemberModal.FailedEmailsSpec | frontend/src/components/groups/AddMemberModal.jsx:118 | the retry list keeps batch order and holds every failed address; for a batch without repeats it has none and holds only failed addresses |
| AddMemberModal.FailedAreListed | frontend/src/components/groups/AddMemberModal.jsx:118 | every address whose request failed is on the retry list |
| AddMemberModal.OnlyFailedListed | frontend/src/components/groups/AddMemberModal.jsx:118 | for a batch without repeats, only failed addresses are on the retry list |
| AddMemberModal.FailedEmailsValid | frontend/src/components/groups/AddMemberModal.jsx:118 | the retry list drawn from a valid pending list is a valid pending list |
| AddMemberModal.PartialDetails | frontend/src/components/groups/AddMemberModal.jsx:115 | one detail per failed address, in the same order, each beginning with its address |
| AddMemberModal.FullDetails | frontend/src/components/groups/AddMemberModal.jsx:122 | one detail per failed address, in the same order, each beginning with its address |
| AddMemberModal.TotalFailureListsEveryAddress | frontend/src/components/groups/AddMemberModal.jsx:122-123 | when nothing was added the message lists every address of the batch once, in order, each with its mapped error |
| AddMemberModal.RemovedOnce | frontend/src/components/groups/AddMemberModal.jsx:46 | filtering an address out of a list without repeats removes exactly one entry when it is listed and none otherwise |
| AddMemberModal.Modal.AddEmailToList | frontend/src/components/groups/AddMemberModal.jsx:24-38 | the modal's input, list and error change as `AddEmail` says; nothing else changes |
| AddMemberModal.Modal.RemoveEmail | frontend/src/components/groups/AddMemberModal.jsx:45-47 | the address is gone, the others stay in order, and the list stays valid |
| AddMemberModal.Modal.HandleClose | frontend/src/components/groups/AddMemberModal.jsx:133-138 | input, list and error are cleared and the parent is asked to close once |
| AddMemberModal.Modal.ReportAllAdded | frontend/src/components/groups/AddMemberModal.jsx:108-112 | all added: the parent refreshes once, the modal clears and asks to close |
| AddMemberModal.Modal.ReportSomeFailed | frontend/src/components/groups/AddMemberModal.jsx:113-119 | a mix: the parent refreshes once, the list becomes the failed addresses and the partial-failure notice is set |
| AddMemberModal.Modal.ReportNoneAdded | frontend/src/components/groups/AddMemberModal.jsx:120-124 | none added: the list is kept and the total-failure notice is set; no refresh and no close |
| AddMemberModal.Modal.ReportOutcomes | frontend/src/components/groups/AddMemberModal.jsx:105-124 | the outcomes of a non-empty batch are folded into exactly one of the three endings above |
| AddMemberModal.Modal.HandleSubmit | frontend/src/components/groups/AddMemberModal.jsx:49-131 | the batch sent is the list as it stood when submit began; an empty one sets "add at least one" and sends nothing; otherwise the outcomes are reported |
| AuthContext.Cleared | frontend/src/contexts/AuthContext.jsx:120-121 | neither key is left and every other stored key keeps its value |
| AuthContext.ClearedIdempotent | frontend/src/contexts/AuthContext.jsx:119-124 | clearing twice is clearing once |
| AuthContext.FailureText | frontend/src/contexts/AuthContext.jsx:88 | the server's non-empty message, else the fallback |
| AuthContext.Session.CheckAuthStatus | frontend/src/contexts/AuthContext.jsx:23-35 | with both keys truthy and parsable text the cached user is installed and the session authenticated before verification; otherwise signed out and loading ends; storage untouched; authenticated only with both keys stored |
| AuthContext.Session.CompleteVerification | frontend/src/contexts/AuthContext.jsx:36-68 | success replaces the in-memory user only; 401 or 403 logs out; any other failure keeps the session; loading ends on every path |
| AuthContext.Session.SignIn | frontend/src/contexts/AuthContext.jsx:71-93 | success stores both keys, sets the user and authenticates; failure returns the message or fallback and changes nothing; loading ends |
| AuthContext.Session.Login | frontend/src/contexts/AuthContext.jsx:71-93 | as `SignIn` with the fallback "Login failed" |
| AuthContext.Session.Register | frontend/src/contexts/AuthContext.jsx:95-117 | as `SignIn` with the fallback "Registration failed" |
| AuthContext.Session.Logout | frontend/src/contexts/AuthContext.jsx:119-124 | both keys removed, no user, not authenticated; loading untouched |
| AuthContext.LateVerificationAfterLogout | frontend/src/contexts/AuthContext.jsx:38-40 | a verification answering after a logout still installs the user, leaving a user that is not authenticated |
| SettlementsPage.SettlementCard | frontend/src/pages/Settlements.jsx:15-65 | owed to me exactly when the payee is me; the settle button shows exactly when not owed to me; the absolute amount is shown |
| SettlementsPage.TotalOwed | frontend/src/pages/Settlements.jsx:84-86 | what I owe is at most the whole list's total, all of it when I pay every settlement, and zero when I pay none |
| SettlementsPage.TotalToReceive | frontend/src/pages/Settlements.jsx:88-90 | what I receive is at most the whole list's total, all of it when every settlement is paid to me, and zero when none is |
| SettlementsPage.SumAbsFilter | frontend/src/pages/Settlements.jsx:84-90 | keeping only some settlements never raises the total |
| SettlementsPage.SumAbsAppend | frontend/src/pages/Settlements.jsx:86 | the total over two lists is the sum of their totals |
| SettlementsPage.TotalOwedPositive | frontend/src/pages/Settlements.jsx:84-86 | what I owe is positive exactly when I pay some settlement with a non-zero amount |
| SettlementsPage.TotalsBounded | frontend/src/pages/Settlements.jsx:84-90 | without self-settlements, what I owe plus what I receive never exceeds the list's total |
| SettlementsPage.Items | frontend/src/pages/Settlements.jsx:177-179 | one item per group in group order, with the settlements of that group |
| SettlementsPage.GroupedSettlements | frontend/src/pages/Settlements.jsx:177-180 | only groups with a settlement, each a listed group with exactly its settlements, each settlement carrying that group's id |
| SettlementsPage.GroupWithSettlementsListed | frontend/src/pages/Settlements.jsx:177-180 | every listed group with a settlement gets its card |
| SettlementsPage.GroupedInOrder | frontend/src/pages/Settlements.jsx:177-180 | the cards keep the order of the group list |
| SettlementsPage.SettlementListedOnce | frontend/src/pages/Settlements.jsx:177-180 | with distinct group ids no settlement is under two cards, and one matching no group is under none |
| ExpensesPage.FilteredExpenses | frontend/src/pages/Expenses.jsx:174-185 | every shown expense is one of the user's expenses |
| ExpensesPage.AllTabShowsEverything | frontend/src/pages/Expenses.jsx:174-185 | "all" and any unknown key show every expense in order |
| ExpensesPage.PaidTab | frontend/src/pages/Expenses.jsx:175-178 | "paid" shows exactly the expenses the user paid, in order |
| ExpensesPage.OweTab | frontend/src/pages/Expenses.jsx:179-183 | "owe" shows exactly the expenses the user did not pay and takes part in, in order |
| ExpensesPage.PaidAndOweDisjoint | frontend/src/pages/Expenses.jsx:174-185 | no expense is on both the "paid" and the "owe" tab |
| ExpensesPage.DeletableIsPaidTab | frontend/src/pages/Expenses.jsx:88 | the expenses with a delete control are exactly those on the "paid" tab; none on "owe" has one |
| ExpensesPage.Payload | frontend/src/pages/Expenses.jsx:142-153 | the signed-in user pays, the group is kept, and the submission can be read back whole from the request (title is the description, participant ids unchanged) |
| ExpensesPage.DialogSubmissionRoundTrip | frontend/src/pages/Expenses.jsx:142-153 | what the dialog submits reaches the request without loss |
| AddExpenseModal.ValidateForm | frontend/src/components/expenses/AddExpenseModal.jsx:102-120 | no message exactly when every check passes; otherwise the first failing check in written order |
| AddExpenseModal.AcceptedFormShape | frontend/src/components/expenses/AddExpenseModal.jsx:102-120 | a form passes exactly when the description is not blank, the amount is positive or not a number, a group is chosen and a participant is selected |
| AddExpenseModal.Edited | frontend/src/components/expenses/AddExpenseModal.jsx:79-97 | checking appends the id, unchecking leaves no occurrence of it and keeps the rest in order, other edits leave the participants alone |
| AddExpenseModal.UncheckKeepsOthers | frontend/src/components/expenses/AddExpenseModal.jsx:89 | unchecking removes every occurrence of the id and keeps the count of every other id |
| AddExpenseModal.CheckThenUncheck | frontend/src/components/expenses/AddExpenseModal.jsx:85-90 | checking then unchecking a box is the same as unchecking it |
| AddExpenseModal.Normalised | frontend/src/components/expenses/AddExpenseModal.jsx:52 | the nested user when present, else the member record itself |
| AddExpenseModal.NormalisedMembers | frontend/src/components/expenses/AddExpenseModal.jsx:49-55 | one normalised member per record, in order |
| AddExpenseModal.Ids | frontend/src/components/expenses/AddExpenseModal.jsx:63 | the ids of the members, in order |
| AddExpenseModal.SubmissionOf | frontend/src/components/expenses/AddExpenseModal.jsx:131-136 | a passing form is sent with title equal to the description, its group, amount, participants, category and date |
| AddExpenseModal.Modal.FetchGroupMembers | frontend/src/components/expenses/AddExpenseModal.jsx:37-77 | a group with members lists them normalised and selects all their ids; no members or a failed call empties the list and sets its message; the form is otherwise kept |
| AddExpenseModal.Modal.HandleChange | frontend/src/components/expenses/AddExpenseModal.jsx:79-100 | the edit is applied and the error cleared |
| AddExpenseModal.Modal.HandleSubmit | frontend/src/components/expenses/AddExpenseModal.jsx:122-151 | a failing form shows the first failing check and sends nothing; otherwise the submission is sent and the form reset on success, or kept with the failure message |
| AddExpenseModal.Modal.HandleClose | frontend/src/components/expenses/AddExpenseModal.jsx:153-166 | form, members, loading flag and error are reset and the parent is asked to close |
| RegisterPage.ValidateForm | frontend/src/components/auth/Register.jsx:31-41 | a mismatch is reported first, even for a short password; then a password under 6 characters; otherwise valid |
| RegisterPage.RegisterPayload | frontend/src/components/auth/Register.jsx:51 | every field but `confirmPassword`, so the form is recovered from the payload and the confirmation |
| RegisterPage.PassingPayload | frontend/src/components/auth/Register.jsx:32-51 | a passing form sends a password of at least 6 characters equal to its confirmation |
| RegisterPage.Page.HandleChange | frontend/src/components/auth/Register.jsx:23-29 | the field takes the value and the error is cleared |
| RegisterPage.Page.HandleSubmit | frontend/src/components/auth/Register.jsx:43-61 | a failing form shows its problem and the session is untouched; otherwise the payload is registered, success navigates to the dashboard, failure shows the session's error |
| CreateGroupModal.MessageShownIffSet | frontend/src/components/groups/CreateGroupModal.jsx:25-36 | the error text is empty exactly when no message is set |
| CreateGroupModal.Edited | frontend/src/components/groups/CreateGroupModal.jsx:13-17 | the named field takes the value and the other is kept |
| Text.BlankIffAllWhitespace | frontend/src/components/groups/CreateGroupModal.jsx:24 | a name is blank once trimmed exactly when it is all whitespace |
| CreateGroupModal.Modal.HandleChange | frontend/src/components/groups/CreateGroupModal.jsx:13-19 | the edit is applied and the error cleared |
| CreateGroupModal.Modal.HandleSubmit | frontend/src/components/groups/CreateGroupModal.jsx:21-40 | an all-whitespace name sets "Group name is required" and sends nothing; otherwise the form is sent untrimmed, emptied on success, or kept with the failure message |
| CreateGroupModal.Modal.HandleClose | frontend/src/components/groups/CreateGroupModal.jsx:42-46 | form and error are reset and the parent is asked to close |

## Left out

- HashMap iteration order: users are kept in first-insertion order, and equal balances keep that order after sorting. The source leaves the tie order unspecified, so the plan is one of the valid plans, not necessarily the one the JVM produces.
- `BigDecimal` arithmetic: amounts are integer cents, and the rounding of `divide(n, 2, HALF_UP)` is written out on integers.
- `DivisionByZeroMessage` is a named constant with no fixed text, because the JDK's `ArithmeticException` message is not part of this model.
- `findByEmail`: the first user with the email is taken. The unique constraint on emails is not modelled.
- The lazy-loading touches (`getMembers().size()` and the like) in `getGroupsByUser` and `getGroupById` have no observable effect and are left out.
- Timestamps (`createdAt`, `joinedAt`) are left out. Generated ids come from one counter shared by all tables, so the model fixes which fresh id each row gets where the database only promises a fresh one.
- How Spring Security obtains the current user's email: it is a parameter.
- The `Promise.all` fan-out of `AddMemberModal.handleSubmit` is a given sequence of per-email outcomes, one per address, in batch order.
- The outer `catch` of `AddMemberModal.handleSubmit` ('Failed to add members. Please try again.') is left out, because every per-email request catches its own error.
- `handleEmailInput`: Enter, comma or space call `addEmailToList`, which is modelled. The key plumbing is not.
- `JSON.parse` of the cached user and `JSON.stringify` of the stored user are parameters.
- AuthContext.Session.Login and AuthContext.Session.Register are atomic: a pending verification can complete before or after them, but not between their request and their answer.
- Floating point: `parseFloat`, `toFixed` and currency formatting are left out. Amounts are cents, and a parsed amount is the `Amount` datatype (empty, a number, or not a number).
- The browser's sanitising of the amount field (`type="number"`) is not modelled: `Amount.NotANumber` over-approximates what the field can hold.
- `parseInt` of the group id and of a check box's value: ids arrive as integers.
- String lengths are counted in characters; JavaScript counts UTF-16 code units.
- The pages' data fetching (`fetchData`, the parallel fetches), `window.confirm` and `alert`, the loading spinners, animations and routing are left out. `navigate('/dashboard')` is the counter `dashboardVisits`.
- Dashboard, Groups, ViewMembersModal and the layout components, the repositories' SQL, the security configuration and the other controllers are not part of this model.
- Users' mobile numbers, passwords and roles, and the entities' validation annotations, are left out.
- The category and date the client sends with an expense are not stored by the server entity and are not modelled there.
