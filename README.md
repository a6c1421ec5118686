# Task manager: request rules and client stores, in Dafny

A model of the decision logic of a small task-management web application
(an Express/Prisma backend and a React/Redux client):

- **Task handlers** (`TaskController`): `getTasks`, `createTask`, `updateTask`
  and `deleteTask` over the task table, a map from id to task, held by a
  `TaskTable` class whose methods update it in place. Every handler refuses an
  absent or zero caller id with 401. Another user's task is answered with the
  same 404 as a missing one, and the table is left unchanged. A successful
  update or delete touches only the target row.
- **Registration and login** (`AuthController`): `register` is a method on the
  `UserStore` class, which holds the username → account map. `login` is a pure
  function of that map. bcrypt and jsonwebtoken are function values (`Crypto`),
  each with the properties the application relies on: a password matches any
  hash of itself; a signed token is in JWT compact form, non-empty and without
  spaces; and verifying it gives back its claims until its expiry, and fails
  with `Expired` in particular from then on.
- **Bearer-token gate** (`AuthMiddleware`): the `Authorization` header goes to
  401, 403 or `next()` with the decoded id. JavaScript's `split(" ")` is
  modelled exactly (`JsString`): a doubled space gives an empty token, and the
  first word is never compared with `Bearer`.
- **Client task store** (`TaskSlice`): the reducers as methods of a `TaskStore`
  class. The `findIndex` and `filter` loops are methods proved against
  specification functions.
- **Client session store** (`AuthSlice`): the `AuthStore` class, including the
  persisted token, and `getErrorMessage` with the `payload || fallback` rule
  (`ThunkErrors`, shared by both slices).
- **End-to-end runs** (`EndToEnd`): register then log in then pass the gate; a
  duplicate registration; a second user trying to update or delete the first
  user's task.

Behaviours of the code that the model keeps and a reader might not expect:

- the gate does not check the `Bearer` scheme word;
- an empty `Authorization` header counts as missing;
- `updateTask` does not require a title;
- nothing checks that the signing secret is present at startup.

## Model

| member | source | states |
|---|---|---|
| `JsString.Split` | Backend/src/middleware/auth.js:14 | `split` on a one-character separator gives at least one field, no field holds the separator, and there is one more field than there are separators |
| `JsString.SplitJoin` | Backend/src/middleware/auth.js:14 | splitting fields joined by the separator gives back the fields, when no field holds the separator |
| `JsString.JoinSplit` | Backend/src/middleware/auth.js:14 | joining the fields of `split` with the separator gives back the string |
| `Crypto.LoginClaims` | Backend/src/controller/authController.js:53 | the signed claims carry the account id, and the expiry is exactly one hour after issue |
| `AuthMiddleware.SecondField` | Backend/src/middleware/auth.js:14 | element `[1]` of the split header exists exactly when the header has a space, and it contains no space |
| `AuthMiddleware.VerifyToken` | Backend/src/middleware/auth.js:10-25 | a missing or empty header gives 401 "Authorization header missing". An absent or empty second field gives 401 "Token missing". Otherwise the request passes exactly when `verify` accepts the token, and then with the decoded id; if `verify` rejects it, the answer is 403. The outcome is exactly one of "respond" or "next" |
| `AuthMiddleware.TokenIsSecondWord` | Backend/src/middleware/auth.js:14 | the token is the text between the first and second space, whatever the first word is |
| `AuthMiddleware.NoSecondWordIsTokenMissing` | Backend/src/middleware/auth.js:14-16 | "Bearer", "Bearer " and a header with a doubled space all give 401 "Token missing" |
| `AuthMiddleware.AnySchemeWord` | Backend/src/middleware/auth.js:14-24 | any scheme word followed by an accepted token passes with the token's id; a rejected token gives 403 |
| `AuthMiddleware.LoginTokenLifetime` | Backend/src/middleware/auth.js:17-24 | a login token opens the gate for its user for one hour after issue, and gives 403 from then on |
| `AuthController.UserStore.Register` | Backend/src/controller/authController.js:22-40 | a missing field gives 400, then a taken username gives 400 "User already exists"; in both cases the table is unchanged. Otherwise a new account is stored with a fresh id and the password's hash, and the answer is 201 with only `{id, username}`. Usernames and ids stay unique |
| `AuthController.Login` | Backend/src/controller/authController.js:42-59 | missing field 400, unknown user 404, password mismatch 401, checked in that order; otherwise 200 with a token signed over the account id that expires one hour later. The table is only read |
| `AuthController.LoginAfterRegister` | Backend/__tests__/auth.test.js:22-32 | logging in with the credentials an account was registered with gives 200 and a token for its id |
| `TaskController.NewestFirst` | Backend/src/controller/taskController.js:24-27 | the chosen rows, each exactly once, newest `createdAt` first |
| `TaskController.Listing` | Backend/src/controller/taskController.js:24-27 | a task is listed exactly when it is a row of the table owned by the given user; the list is in descending `createdAt` order with no row twice |
| `TaskController.GetTasks` | Backend/src/controller/taskController.js:18-33 | no caller or caller id 0 gives 401. Otherwise the answer is 200 with exactly the caller's rows, each once, newest first |
| `TaskController.Patched` | Backend/src/controller/taskController.js:67-70 | an update sets the title, description and status the body gives and keeps the others. Id, owner and timestamps never change |
| `TaskController.TaskTable.CreateTask` | Backend/src/controller/taskController.js:36-53 | no caller gives 401 and a missing or empty title gives 400, neither changing the table. Otherwise a fresh id is added with the caller as owner (any owner in the body is ignored), with status pending when none is given, and the answer is 201 |
| `TaskController.TaskTable.UpdateTask` | Backend/src/controller/taskController.js:56-76 | no caller gives 401; a missing row and another user's row give the same 404. Neither changes the table. On success only the target row changes, to its patched value |
| `TaskController.TaskTable.DeleteTask` | Backend/src/controller/taskController.js:79-95 | the same 401 and 404 cases as update, with the table unchanged. On success exactly the target row is removed and the answer is "Task deleted" |
| `ThunkErrors.GetErrorMessage` | Frontend/src/features/auth/authSlice.ts:21-27 | the server's non-empty message for an HTTP-client error, else the error's own message, else "An unknown error occurred" |
| `ThunkErrors.RejectionMessage` | Frontend/src/features/tasks/taskSlice.ts:91-94 | the rejection payload when it is a non-empty string, else the fallback. It is never empty when the fallback is not |
| `ThunkErrors.ServerMessageReachesState` | Frontend/src/features/tasks/taskSlice.ts:34-36 | a server message caught by a thunk is the error the state ends up with; a failure with no text gives the fallback |
| `TaskSlice.ReplaceFirst` | Frontend/src/features/tasks/taskSlice.ts:106-109 | replacing the first task with the payload's id keeps the length |
| `TaskSlice.ReplaceFirstAt` | Frontend/src/features/tasks/taskSlice.ts:107-108 | when the first match is at `i`, the update changes position `i` to the payload and nothing else |
| `TaskSlice.ReplaceFirstNoMatch` | Frontend/src/features/tasks/taskSlice.ts:108 | with no task of the payload's id, the list is unchanged |
| `TaskSlice.WithoutId` | Frontend/src/features/tasks/taskSlice.ts:112 | a task survives the delete filter exactly when it was in the list with another id |
| `TaskSlice.WithoutIdConcat` | Frontend/src/features/tasks/taskSlice.ts:112 | the filter distributes over concatenation, so the kept tasks keep their relative order |
| `TaskSlice.WithoutIdCount` | Frontend/src/features/tasks/taskSlice.ts:112 | the filter drops exactly as many tasks as have that id |
| `TaskSlice.FindIndex` | Frontend/src/features/tasks/taskSlice.ts:107 | gives the first position holding the id, or -1 exactly when no task has it |
| `TaskSlice.Filter` | Frontend/src/features/tasks/taskSlice.ts:112 | the loop computes the delete filter |
| `TaskSlice.TaskStore.constructor` | Frontend/src/features/tasks/taskSlice.ts:12-16 | the initial state has no tasks, is not loading and has no error |
| `TaskSlice.TaskStore.Pending` | Frontend/src/features/tasks/taskSlice.ts:86 | a fetch or create pending action sets only the loading flag |
| `TaskSlice.TaskStore.FetchFulfilled` | Frontend/src/features/tasks/taskSlice.ts:87-90 | the list becomes the payload and loading is cleared; an earlier error stays |
| `TaskSlice.TaskStore.FetchRejected` | Frontend/src/features/tasks/taskSlice.ts:91-94 | the list is kept, loading is cleared, and the error is the payload or "Failed to fetch tasks" |
| `TaskSlice.TaskStore.CreateFulfilled` | Frontend/src/features/tasks/taskSlice.ts:97-100 | the payload is appended and the earlier tasks are unchanged |
| `TaskSlice.TaskStore.CreateRejected` | Frontend/src/features/tasks/taskSlice.ts:101-104 | the list is kept, loading is cleared, and the error is the payload or "Failed to create task" |
| `TaskSlice.TaskStore.UpdateFulfilled` | Frontend/src/features/tasks/taskSlice.ts:106-109 | the list becomes `ReplaceFirst` of the old list; loading and error are untouched |
| `TaskSlice.TaskStore.DeleteFulfilled` | Frontend/src/features/tasks/taskSlice.ts:111-113 | the list becomes `WithoutId` of the old list; loading and error are untouched |
| `AuthSlice.RejectFallback` | Frontend/src/features/auth/authSlice.ts:81-99 | "Login failed" for login and "Registration failed" for registration, never empty |
| `AuthSlice.AuthStore.constructor` | Frontend/src/features/auth/authSlice.ts:13-18 | no user, not loading, no error, and the token read back from storage |
| `AuthSlice.AuthStore.Logout` | Frontend/src/features/auth/authSlice.ts:62-67 | storage, user, token and error are cleared; loading is untouched |
| `AuthSlice.AuthStore.Pending` | Frontend/src/features/auth/authSlice.ts:72-75 | loading is set and the error cleared, for login and registration alike |
| `AuthSlice.AuthStore.Fulfilled` | Frontend/src/features/auth/authSlice.ts:76-80 | loading is cleared; user and token are copied from the payload as they are, absent ones included |
| `AuthSlice.AuthStore.Rejected` | Frontend/src/features/auth/authSlice.ts:81-84 | loading is cleared; the error is the payload or that thunk's fallback |
| `AuthSlice.AuthStore.LoginSucceeded` | Frontend/src/features/auth/authSlice.ts:44-56 | a successful login writes the returned token to storage before the fulfilled update |
| `EndToEnd.RegisterThenLogin` | Backend/__tests__/auth.test.js:22-32 | registering gives 201 with `{id: 1, username}`; logging in next gives 200 with a token; and that token passes the gate as user 1 within the hour |
| `EndToEnd.RegisterTwice` | Backend/src/controller/authController.js:27-29 | a second registration of the same username is refused with 400 and leaves one account |
| `EndToEnd.OtherUsersTask` | Backend/src/controller/taskController.js:56-95 | user B's update and delete of user A's task both give 404. A keeps the task and its ownership, B's listing is empty and A's listing is exactly that task |

## Left out

- The `catch` → 500 "Server error" paths of every handler. The store and the crypto libraries are assumed not to fail.
- Prisma query mechanics and the database connection. The tables are Dafny maps, and ids come from an autoincrement counter starting at 1.
- The check-then-create race in `register` between concurrent requests. The model is sequential.
- `Number(id)` coercion of path parameters. Task ids are integers.
- bcrypt and jsonwebtoken internals: salting cost, the token's encoding and the signing secret. They are function values with the properties named above. Of the token's encoding the model assumes only that a signed token is in JWT compact form, non-empty and without spaces; verifying a token after its expiry fails with `Expired`. The salt and the clock are parameters.
- The startup check for a missing signing secret. The code has none, so the model has none.
- TaskController.TaskTable.CreateTask: the pending status for a task created without one is the store's column default, which is not part of this model. It is written as a constant.
- TaskController.Patched: a store-side refresh of `updatedAt` on update is not modelled. The handler does not set it, and the schema is not part of this model.
- TaskController.Patched: an explicit `null` in a request body is not distinguished from a field left out.
- TaskController.NewestFirst: the store leaves the order of tasks with equal `createdAt` open. The model puts the larger id first; the contracts of `Listing` and `GetTasks` promise only the `createdAt` order.
- Timestamps are instants (integers), not ISO strings.
- The client thunks' HTTP calls, the async dispatch and `localStorage` I/O. The reducers take the payloads as arguments, and the persisted token is a field of `AuthStore`.
- Actions the task slice has no case for (update/delete pending and rejected) leave its state as it is. They are not written as methods.
- React components, routing, form validation (delegated to zod) and the Express/serverless wiring.
