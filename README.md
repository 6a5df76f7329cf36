# Helpdesk and inventory backend, modelled in Dafny

This project models the request handlers of an Express/Mongoose backend:

- user authentication gates (`isAuthenticated`, `authorizeRole`, the login rate limiter, logout);
- the user controller and the user schema, including its pre-save password hashing and unique email index;
- the user router's middleware chains;
- the ticket controller, its Joi validation schema and the ticket schema;
- the inventory item, category and supplier controllers and their schemas.

Each MongoDB collection is a `Store.Collection<T>`: a map from document id to document plus the natural (insertion) order of the ids. Handlers that write to a collection are methods with `modifies` clauses. Each states the reply and the exact new contents of the collection. Read-only handlers and the middleware gates are functions. Each middleware yields a `Gate`: `Next` (calls `next()`) or `Halt(reply)`. The session is a `UserAuth.Session` object whose `userId` logout clears.

bcrypt is an uninterpreted function `h: string -> string`. `bcrypt.compare(p, stored)` is `h(p) == stored`. Clock readings (`Date.now`) are a `now` parameter. Whether a string parses as a date (Joi's `date()`) is a parameter `isDate`. A request body value that is `undefined` is `None`. JavaScript truthiness of a string is `Common.Truthy` (present and non-empty).

`save()` is modelled in the order Mongoose runs it:

1. The required fields are checked. A required string must be non-empty.
2. The pre-save hook runs.
3. The write is refused when another document already holds the email (the unique index).

A refused save changes nothing. An update (`findByIdAndUpdate`) writes the fields the request gives. Keys that are `undefined` drop out of the update.

Three behaviours of the code that are easy to miss:

- The item schema has no lower bound on `quantity`, so a negative quantity is stored as given.
- `updateSupplier` answers 200 with a null body for an unknown id; there is no 404.
- `createCategory` looks up `{ name }`. When `name` is absent, the filter loses its only key and matches any category. The request is then refused with 400 "Category already exists" as soon as one category exists. With an empty store it is refused with 500, because the schema requires a name.

## Model

| member | source | states |
|---|---|---|
| UserAuth.Session.constructor | src/middleware/userAuth.ts:8-12 | a fresh session carries no user id |
| UserAuth.IsAuthenticated | src/middleware/userAuth.ts:28-34 | passes exactly when the session user id is truthy; otherwise 401 "Unauthorized: Please log in to access this resource" |
| UserAuth.AuthorizeRole | src/middleware/userAuth.ts:37-59 | 401 without a session user, then 404 for a user missing from the store, then 403 for a role that is not exactly the required one; passes iff the stored role equals the required role |
| UserAuth.LoginRateLimit | src/middleware/userAuth.ts:21-25 | passes at most 5 attempts per window; later attempts get 429 |
| UserAuth.AuthorizeRoleReadsOnlyRole | src/middleware/userAuth.ts:44-49 | the role gate depends on the store only through the session user's presence and role |
| UserAuth.RoleChangeSeenAtNextCheck | src/middleware/userAuth.ts:44-53 | after a role change the very next check passes iff the new role is the required one |
| UserAuth.LoggedInUserHasOwnRole | src/middleware/userAuth.ts:28-53 | a stored, logged-in user passes `isAuthenticated` and the role gate for its own role |
| UserAuth.LogoutUser | src/middleware/userAuth.ts:62-70 | a failed destroy gives 500 with the session unchanged; otherwise 200 and the session no longer has a user id |
| UserAuth.LogoutThenRequest | src/middleware/userAuth.ts:62-68 | after a successful logout the session holds no user and `isAuthenticated` answers 401 |
| UserModel.Construct | src/models/userModel.ts:16-22 | every given field is kept as given; an absent role defaults to "user", status to "active", permissions to []; the required fields are present iff username, email and password are non-empty and any given role is non-empty |
| UserModel.PutKeepsUniqueEmails | src/models/userModel.ts:18 | writing a document whose email no other document holds keeps emails unique |
| UserModel.Save | src/models/userModel.ts:16-37 | a missing required field is a validation error; a taken email is a duplicate key; either leaves the store unchanged; otherwise the document is written, its password hashed once iff the password was modified |
| UserController.FindOneByEmail | src/controllers/userController.ts:20 | finds a stored user with the email, or reports that none has it |
| UserController.LoginThenGates | src/controllers/userController.ts:30 | after a successful login the session now holds a stored user and passes `isAuthenticated` and the role gate for that user's own role; a failed login leaves the session, and what `isAuthenticated` answers, as they were |
| UserController.LoginUser | src/controllers/userController.ts:16-36 | 200 iff a user has the email and the password matches its hash, and then the session holds that user's id; otherwise the same 401 "Invalid email or password" and the session unchanged |
| UserController.GetUserById | src/controllers/userController.ts:39-55 | 404 for an unknown id; otherwise the id, username, email, role, permissions and status of the user, and no password |
| UserController.ProfileUpdate | src/controllers/userController.ts:68 | only username, email and role can change; absent ones keep their value |
| UserController.UpdateUser | src/controllers/userController.ts:58-80 | 400 on validation errors, then 404, then 500 for an email another user holds, all without change; otherwise only the three fields change and the reply has no password |
| UserController.DeleteUser | src/controllers/userController.ts:83-97 | 404 for an unknown id; otherwise exactly that user is removed and the others keep their order |
| UserController.OwnEmailNotTaken | src/controllers/userController.ts:121 | while emails are unique, re-saving a user never trips the unique index on its own email |
| UserController.ChangePassword | src/controllers/userController.ts:100-128 | 403 whenever the session user is not the path id, then 404, then 401 for a wrong old password, all without change; on success the store holds h(h(new)) |
| UserController.ChangePasswordCorrected | src/controllers/userController.ts:100-128 | the same decisions, but on success the store holds h(new) |
| UserController.DoubleHashRejectsNewPassword | src/controllers/userController.ts:120 | for an injective hash with no fixpoint, the new password never matches h(h(new)) |
| UserController.PrefixHashIsInjectiveWithoutFixpoint | src/controllers/userController.ts:120 | a hash meeting the hypotheses of the lockout lemma exists |
| UserController.ChangePasswordThenLogin | src/controllers/userController.ts:115-123 | after a successful change, logging in with the new password gets 401 |
| UserController.ChangePasswordCorrectedThenLogin | src/controllers/userController.ts:115-123 | after a successful corrected change, logging in with the new password gets 200 and the session holds the user |
| UserController.AssignRole | src/controllers/userController.ts:150-166 | 404 for an unknown id; otherwise only the role changes, and the reply carries the password hash |
| UserController.AssignRoleCorrected | src/controllers/userController.ts:150-166 | the same store change, and the reply never carries a password |
| UserController.CreateUser | src/controllers/userController.ts:169-189 | 201 iff the required fields are present and the email is free; then exactly one user is added with its password hashed once, and the reply carries that hash; otherwise 400 and no change |
| UserController.CreateUserCorrected | src/controllers/userController.ts:169-189 | the same store change, and the reply never carries a password |
| UserController.GetAllUsers | src/controllers/userController.ts:192-207 | skips (page-1)*limit users (defaults 1 and 10; a negative skip gives 500), returns at most limit users in order without passwords (0 means no limit), and totalUsers counts every user |
| UserRoutes.RunChain | src/routes/userRoutes.ts:18-47 | a chain passes iff every middleware passes; otherwise the first middleware that answers gives the reply |
| UserRoutes.EachHandlerRoutedOnce | src/routes/userRoutes.ts:21-47 | every user handler has exactly one route |
| UserRoutes.RouteGuards | src/routes/userRoutes.ts:21-47 | admin routes run isAuthenticated then authorizeRole('admin'); password change and logout run isAuthenticated only; login runs only the rate limiter |
| UserRoutes.AdminRouteDecision | src/routes/userRoutes.ts:24-44 | an admin route passes iff the session user is stored with role "admin"; otherwise 401, 404 or 403 in that order |
| UserRoutes.SessionRouteDecision | src/routes/userRoutes.ts:32-47 | the password-change and logout routes pass iff the session has a user id; otherwise 401 |
| UserRoutes.LoginRouteDecision | src/routes/userRoutes.ts:21 | the login route ignores the session and passes iff the attempt is within the limit; otherwise 429 |
| Tickets.DefaultsAreInEnums | src/models/Tickets.ts:30-39 | the default status and priority belong to their enumerations |
| TicketValidation.JoiListsMatchSchemaEnums | src/validation/ticketValidation.ts:7-9 | the request schema's priority and status lists are exactly the store schema's enumerations |
| TicketValidation.AcceptedBodyShape | src/validation/ticketValidation.ts:3-15 | an accepted body has non-empty title, description and userId, enumerated status and priority, and comments with author and text |
| TicketValidation.RefusedBodies | src/validation/ticketValidation.ts:3-15 | unknown keys, a missing required key, or an out-of-enum priority or status make a body invalid |
| TicketValidation.MinimalBodyAccepted | src/validation/ticketValidation.ts:3-15 | title, description and userId alone make a valid body |
| TicketController.ToComments | src/models/Tickets.ts:50-66 | one stored comment per body comment, in order, each with its author and text, stamped with its own timestamp when given and otherwise with the creation time |
| TicketController.NewTicket | src/controllers/ticketController.ts:13-19 | an accepted body yields a well-formed ticket with the given title, description, user, assignee and comments, status "open" and priority "medium" when absent |
| TicketController.CreateTicket | src/controllers/ticketController.ts:7-24 | a body the schema refuses gets 400 and no change; otherwise exactly one ticket is added; well-formed tickets stay well-formed, and a store that `updateTicketStatus` has left outside the enumerations is still accepted |
| TicketController.AddComment | src/controllers/ticketController.ts:29-52 | 400 when userId or comment is missing or empty, then 404, both without change; otherwise exactly one comment is appended at the end; well-formed tickets stay well-formed |
| TicketController.GetTickets | src/controllers/ticketController.ts:56-63 | every ticket, in natural order |
| TicketController.GetTicketById | src/controllers/ticketController.ts:65-78 | 404 for an unknown id; otherwise the stored ticket |
| TicketController.UpdateTicketStatus | src/controllers/ticketController.ts:82-101 | 400 when the status is missing or empty, then 404, both without change; otherwise only that ticket's status changes; tickets stay well-formed iff the status is enumerated |
| TicketController.DeleteTicket | src/controllers/ticketController.ts:104-118 | 404 for an unknown id; otherwise exactly that ticket is removed and the others keep their order; well-formed tickets stay well-formed |
| TicketController.CreateThenComment | src/controllers/ticketController.ts:7-52 | a ticket created without a status is "open", and one comment leaves it with exactly one comment |
| Items.NewItem | src/models/ItemModel.ts:13-20 | refused iff the name is missing or empty or the price is missing; otherwise the given fields, quantity 0 when absent, and createdAt the creation time |
| Suppliers.NewSupplier | src/models/inventoryModels/supplierModel.ts:14-22 | refused iff the name, contact email or contact phone is missing or empty; otherwise the given fields |
| CategoryController.FindOneByName | src/controllers/inventoryController/categoryContoller.ts:10 | finds a category matching `{ name }` (any category when name is absent), or reports that none matches |
| CategoryController.CreateCategory | src/controllers/inventoryController/categoryContoller.ts:6-23 | 400 when a category matches, then 500 for a missing name, both without change; otherwise exactly one category is added; distinct names stay distinct |
| CategoryController.GetAllCategories | src/controllers/inventoryController/categoryContoller.ts:26-34 | every category, in natural order |
| CategoryController.GetCategoryById | src/controllers/inventoryController/categoryContoller.ts:37-51 | 404 for an unknown id; otherwise the category |
| CategoryController.CreateTwice | src/controllers/inventoryController/categoryContoller.ts:10-18 | creating a name twice adds it once and refuses the second request with 400 |
| SupplierController.CreateSupplier | src/controllers/inventoryController/supplierController.ts:6-17 | 201 iff the schema accepts the supplier, adding exactly it; otherwise 500 and no change |
| SupplierController.GetAllSuppliers | src/controllers/inventoryController/supplierController.ts:20-27 | every supplier, in natural order |
| SupplierController.GetSupplierById | src/controllers/inventoryController/supplierController.ts:30-43 | 404 for an unknown id; otherwise the supplier |
| SupplierController.Overwrite | src/controllers/inventoryController/supplierController.ts:51-55 | given fields replace the stored ones, absent ones keep their value, createdAt is kept |
| SupplierController.OverwriteExtremes | src/controllers/inventoryController/supplierController.ts:51-55 | an empty update is the identity; a full one keeps only createdAt |
| SupplierController.UpdateSupplier | src/controllers/inventoryController/supplierController.ts:46-61 | an unknown id gets 200 with a null body and no change; otherwise the given fields overwrite the stored ones |
| SupplierController.DeleteSupplier | src/controllers/inventoryController/supplierController.ts:64-77 | 404 for an unknown id; otherwise exactly that supplier is removed and the others keep their order |
| InventoryController.Resolve | src/controllers/inventoryController/inventoryController.ts:47 | a reference resolves to the record it names, or to null when none |
| InventoryController.CreateItem | src/controllers/inventoryController/inventoryController.ts:7-30 | 404 "Category not found" first, then 404 "Supplier not found", then 500 when the schema refuses, all without change; otherwise exactly one item with the given fields is added, and resolving references stay resolving |
| InventoryController.GetAllItems | src/controllers/inventoryController/inventoryController.ts:33-41 | every item, in natural order, with references resolved |
| InventoryController.GetItemById | src/controllers/inventoryController/inventoryController.ts:44-57 | 404 for an unknown id; otherwise the item's name, quantity, price and creation time, with each reference resolved or null |
| InventoryController.ResolvedReadsShowBoth | src/controllers/inventoryController/inventoryController.ts:47 | while all references resolve, a read shows both category and supplier |
| InventoryController.Overwrite | src/controllers/inventoryController/inventoryController.ts:72-76 | given fields replace the stored ones with no reference check, absent ones keep their value |
| InventoryController.UpdateItem | src/controllers/inventoryController/inventoryController.ts:60-82 | 404 for an unknown id without change; otherwise the given fields overwrite the stored ones |
| InventoryController.DeleteItem | src/controllers/inventoryController/inventoryController.ts:85-102 | 404 for an unknown id; otherwise exactly that item is removed and the others keep their order |
| InventoryController.UpdateToDanglingCategory | src/controllers/inventoryController/inventoryController.ts:66-76 | an update can point an item at a category that does not exist, and reads then show a null category |

## Left out

- Store faults: every handler's `catch` that answers 500 for a failing database is not modelled. Validation and duplicate-key refusals, which are decided by the data, are modelled.
- Interleaving between requests: each handler is modelled as one atomic step on the store. `updateItem` and `deleteItem` look the item up and then make a second store call (src/controllers/inventoryController/inventoryController.ts:66-76, 90-96); if another request deletes the item in between, the source answers 200 with a null body, or 200 with "Item deleted successfully", which the model does not capture.
- Mongoose cast errors: ids are strings and every string is taken as a well-formed ObjectId. Where the source looks an id up, a malformed one is modelled as an unknown id (404) rather than the 500 the cast failure gives. Where the source only stores an id, it is stored as given and the reply is 201 or 200, where the source answers 500. The stored-only ids are `createTicket`'s `userId`, `assignedTo` and comment `userId`s; `addComment`'s `userId`; and `updateItem`'s `category` and `supplier`.
- Update validators (`runValidators: true` in `updateItem` and `updateSupplier`): updates write the given fields unchecked, so `UpdateTicketStatus`, `UpdateItem` and `UpdateSupplier` can store values that `save()` would refuse.
- `searchUsers`: regular-expression matching in the store is out of scope.
- `express-session` and `connect-mongo`: session ids, cookies (`clearCookie`) and expiry. The session is only its optional user id.
- `express-rate-limit`: window bookkeeping and per-client counting. Only the limit (5 attempts per 15 minutes) and the 429 reply are modelled.
- `requestLogger` and the logger: logging only. The logger passes every request on.
- Automatic `createdAt`/`updatedAt` timestamps of users and tickets; dates are opaque values.
- Joi date parsing and the exact text of Joi's error messages: the 400 reply of `CreateTicket` has status only.
- `express-validator` rule chains: `UpdateUser` takes their error list as a parameter. No chain is attached to `PUT /users/:id` and `body` is imported but unused, so in the running application the list is always empty and the 400 branch is never taken.
- Request bodies whose values are not strings or numbers where the handlers destructure them (for example a number as `email`).
- `GetAllUsers`: page and limit that are not integers (`Number("abc")` is NaN) are not modelled.
- `loginUser` with an absent email or password is not modelled: both are strings. With `email` absent, Mongoose drops the undefined key, so `findOne({ email: undefined })` matches the first stored user and the given password is compared with that user's hash, which can log that user in; the model does not capture this.
- `changePassword` with an absent `oldPassword` or `newPassword` is not modelled: bcrypt then throws and the source answers 500; both are strings here.
- The ticket, inventory and supplier routers: plain route tables with no gates.
- Response bodies beyond status and message. The documents returned are shown as out-values of the methods.

## Findings

| source | as written | input that shows it | evidently intended | confidence | as-written member | corrected member |
|---|---|---|---|---|---|---|
| src/controllers/userController.ts:120 | the handler stores `bcrypt.hash(new)` and `save()` hashes again, leaving h(h(new)) | any successful change, e.g. new password "pw" with h = prefix "$": stored "$$pw", login compares "$pw", 401 | assign the plaintext and let the pre-save hook hash it once | high; not executed | UserController.ChangePasswordThenLogin | UserController.ChangePasswordCorrectedThenLogin |
| src/controllers/userController.ts:185 | the 201 reply carries the saved document, password hash included | any successful create | strip the password as `getUserById` and `updateUser` do | high; not executed | UserController.CreateUser | UserController.CreateUserCorrected |
| src/controllers/userController.ts:161 | the 200 reply carries the updated document, password hash included | any role change of an existing user | strip the password as the other user reads do | medium; not executed | UserController.AssignRole | UserController.AssignRoleCorrected |
