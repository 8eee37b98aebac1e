# Blog backend core — a Dafny model

This project models the core of a small blog backend: registration, login and
token verification (the auth service); the category, comment and user services,
which each turn one repository call into a `{status, message, data}` response
envelope or an application error; and the post repository, which handles reads,
the post/comment relation query, and create/update/delete over the post table.

Layout:

- `Wrappers.dfy`: `Option` and `Result`.
- `Errors.dfy`: storage errors (`DbErr`), hashing errors and the application error
  type (`AppError`).
- `Format.dfy`: decimal rendering of an integer id, as used in the not-found
  messages, with a parser that proves the rendering can be read back and is
  injective.
- `Domain.dfy`: stored rows, request bodies, public projections and the response
  envelope.
- `Envelope.dfy`: the shared repository-result → envelope translation.
- `CategoryService.dfy`, `CommentService.dfy`, `UserService.dfy`: the resource
  services. Each is a set of total functions over a repository record. The record
  holds one function value per repository call, so every contract holds whatever
  storage answers.
- `Auth.dfy`: an in-memory user table keyed by email (`UserTable`) and the auth
  service (`AuthService`). The password hasher and the token configuration are
  records of function values. The salt a hash draws and the clock a token reads are
  explicit parameters.
- `Posts.dfy`: the post table as a class over `map<int, Post>` with an id counter.
  The relation query is written as the join (`Related`, `WithComments`) followed by
  the flattening (`Rows`, `Flatten`).

The read operations of the services are declared to return
`Result<Option<ApiResponse<_>>, AppError>`, but their bodies never produce
`Ok(None)`: a read that finds nothing returns `Err(NotFound(..))` (for example
`src/service/category.rs:47`). The model follows the bodies, and the
`r != Ok(None)` clauses state this. Login, as
written, reports an unknown email as `NotFound("User not found")` and a wrong
password as `InvalidCredentials`. The model keeps these two errors distinct.

Only registration hashes a password (`src/service/auth.rs:26-36`). The user
service's create (`src/service/user.rs:20-34`) passes the caller's
`CreateUserRequest` to the repository as it is, password included. A user
created through that path is therefore stored with the password the caller
sent, not a hash. `UserService.CreateUser` keeps this behaviour: the request
reaches `createUser` unchanged.

## Model

| member | source | states |
|---|---|---|
| Auth.AuthService.RegisterUser | src/service/auth.rs:19-44 | A taken email gives `EmailAlreadyExists` after the email check alone, and the table is unchanged. A hashing failure gives `HashingError` with the hasher's reason, and nothing is stored. Otherwise the stored user gets the next id and the hash in place of the password, and the answer is "User registered successfully" with the password-free projection. Recorded collaborator calls run check → hash → create. The table's invariant is preserved. |
| Auth.AuthService.LoginUser | src/service/auth.rs:46-60 | An unknown email gives `NotFound("User not found")`. A failed password comparison gives `InvalidCredentials`. The result is Ok exactly when the user exists, the comparison succeeds and token generation succeeds. The token is the one generated for that user's id. A token-generation error is passed on unchanged. On success, the user the token is issued for carries the login email, and no other stored user shares its id. |
| Auth.AuthService.VerifyToken | src/service/auth.rs:62-64 | Pure delegation: the answer is exactly the token configuration's, including its error. |
| Auth.UserTable.FindByEmail | src/service/auth.rs:47 | Given the table invariant, the lookup finds a user exactly when that email is stored. The user found carries that email and an id already handed out, and no other stored user has that id. |
| Auth.UserTable.CreateUser | src/service/auth.rs:38 | A duplicate email is a storage error and changes nothing. Otherwise the user is inserted under the next id with the request's fields. Emails remain keys and ids remain distinct. |
| Auth.RegisterThenLogin | src/service/auth.rs:19-60 | Registering a new email and then logging in with the same password yields the token for the new id. A wrong password is `InvalidCredentials`. Registering the same email again is `EmailAlreadyExists`, and the first registration's stored record (new id, names, email, hash) is left as it was. No other user is touched. |
| CategoryService.GetCategories | src/service/category.rs:17-32 | Ok exactly when the repository lists successfully. The answer has one "success" envelope per row, in row order, with that row's projection. A storage error becomes `DbError` with the same cause. |
| CategoryService.GetCategory | src/service/category.rs:34-49 | Never `Ok(None)`. A present row is wrapped in a success envelope. An absent one is `NotFound("Category with id <id> not found")`. A storage error becomes `DbError`. |
| CategoryService.CreateCategory | src/service/category.rs:51-64 | Ok exactly when the insert succeeds, with the projection of the stored row and the message "Category created successfully". Otherwise `DbError`. |
| CategoryService.UpdateCategory | src/service/category.rs:66-79 | Ok exactly when the update succeeds, and then always `Some` with the updated row. Never `Ok(None)`. A storage error becomes `DbError`. |
| CategoryService.DeleteCategory | src/service/category.rs:81-92 | Ok with the message "Category deleted successfully" exactly when the delete succeeds. Otherwise `DbError`. |
| CategoryService.MissingCategoriesAreDistinguished | src/service/category.rs:47 | For two absent ids, the two answers are equal if and only if the ids are equal: the message names the id. |
| CommentService.GetComments | src/service/comment.rs:16-31 | One success envelope per comment row, in order. Ok exactly when the repository lists successfully. Otherwise `DbError`. |
| CommentService.GetComment | src/service/comment.rs:33-48 | Never `Ok(None)`. A present comment is wrapped. An absent one is `NotFound("Comment with id <id> not found")`. A storage error becomes `DbError`. |
| CommentService.CreateComment | src/service/comment.rs:50-61 | Ok exactly when the insert succeeds, with the stored row's projection. Otherwise `DbError`. |
| CommentService.UpdateComment | src/service/comment.rs:63-74 | Ok exactly when the update succeeds, and then always `Some` with the updated row. Otherwise `DbError`. |
| CommentService.DeleteComment | src/service/comment.rs:76-87 | Ok with the message "Comment deleted successfully" exactly when the delete succeeds. Otherwise `DbError`. |
| CommentService.MissingCommentsAreDistinguished | src/service/comment.rs:46 | For two absent ids, the two answers are equal if and only if the ids are equal. |
| UserService.CreateUser | src/service/user.rs:20-34 | Ok exactly when the insert succeeds, with the password-free projection of the stored user. Otherwise `DbError`. |
| UserService.FindByEmailExists | src/service/user.rs:36-47 | The data is the repository's answer. The message is "User exists" exactly when the data is true, and "User does not exist" otherwise. A storage error becomes `DbError`. |
| UserService.FindUserByEmail | src/service/user.rs:50-68 | Never `Ok(None)`. A present user is wrapped as its projection. An absent one is `NotFound("User with email <email> not found")`. A storage error becomes `DbError`. |
| UserService.FindById | src/service/user.rs:70-88 | Never `Ok(None)`. A present user is wrapped as its projection. An absent one is `NotFound("User with id <id> not found")`. A storage error becomes `DbError`. |
| UserService.UpdateUser | src/service/user.rs:90-104 | Ok exactly when the update succeeds, and then always `Some` with the updated user's projection. Otherwise `DbError`. |
| UserService.DeleteUser | src/service/user.rs:106-117 | Ok with the message "User deleted successfully" exactly when the delete succeeds. Otherwise `DbError`. |
| UserService.MissingEmailsAreDistinguished | src/service/user.rs:66 | For two absent emails, the answers are equal if and only if the emails are equal. |
| UserService.MissingIdsAreDistinguished | src/service/user.rs:86 | For two absent ids, the answers are equal if and only if the ids are equal. |
| Envelope.Envelopes | src/service/category.rs:23-29 | A list answer has one envelope per item, in item order. Each envelope carries the status "success", the given message and that item's projection. |
| Format.IntToStringRoundTrip | src/service/category.rs:47 | The decimal rendering of an id is a well-formed numeral that parses back to the same id. |
| Format.IntToStringInjective | src/service/category.rs:47 | Two ids render to the same text if and only if they are equal. |
| Format.FramedInjective | src/service/category.rs:47 | Two messages with the same prefix and suffix are equal if and only if their middles are equal. |
| Posts.PostTable.GetAllPosts | src/repository/posts.rs:22-24 | Every stored post appears, each exactly as stored, with as many rows as posts, in strictly ascending id order. |
| Posts.ScanById | src/repository/posts.rs:22-24 | A full scan of a table keyed by id has one row per key, each row as stored, every stored row present, and ids strictly ascending. |
| Posts.Ascending | src/repository/posts.rs:22-24 | The keys of a set, each exactly once, in strictly ascending order. |
| Posts.PostTable.GetPost | src/repository/posts.rs:26-28 | Returns the post stored under that id, whose id is that id, or nothing exactly when the id is absent. |
| Posts.PostTable.GetPostRelation | src/repository/posts.rs:30-47 | An absent post yields no rows. A present post yields exactly one row per related comment, in comment-table order, each pairing the stored post with that comment. Every row's post id and comment post id equal the requested id. |
| Posts.Related | src/repository/posts.rs:31-35 | The join keeps exactly the comments whose post id matches. It never adds a comment. |
| Posts.RelatedAppend | src/repository/posts.rs:31-35 | The join distributes over concatenation of the comment table, so it keeps table order. |
| Posts.WithComments | src/repository/posts.rs:31-35 | Each post, in order, is paired with exactly its related comments. |
| Posts.Rows | src/repository/posts.rs:39-43 | One post contributes one row per comment, in comment order, each pairing that post with the comment. |
| Posts.Flatten | src/repository/posts.rs:37-44 | The flattened relation has exactly as many rows as there are comments over all posts. |
| Posts.FlattenAppend | src/repository/posts.rs:37-44 | Flattening distributes over concatenation, so posts keep their order. |
| Posts.FlattenMembership | src/repository/posts.rs:37-44 | A row is in the flattened relation if and only if some post in the join is its post and has its comment. |
| Posts.CommentlessPostAddsNothing | src/repository/posts.rs:37-44 | A post with zero comments contributes no row, wherever it stands: there is no null-comment row. |
| Posts.RelationRowCounts | src/repository/posts.rs:30-47 | With two related comments around an unrelated one, the relation gives exactly those two rows in order. With only an unrelated comment, it gives none. |
| Posts.PostTable.CreatePost | src/repository/posts.rs:49-61 | Always succeeds. The new post gets an id not in use and carries the request's six fields. The table gains exactly that row, and its invariant is kept. |
| Posts.PostTable.UpdatePost | src/repository/posts.rs:63-78 | A missing id is `RecordNotFound("Post not found")` and changes nothing. Otherwise the post keeps its id and takes the request's six fields, and only that row changes. |
| Posts.PostTable.DeletePost | src/repository/posts.rs:80-88 | A missing id is `RecordNotFound("Post not found")` and changes nothing. Otherwise exactly that row is removed and the answer is `Ok(())`. |
| Posts.PostLifecycle | src/repository/posts.rs:26-88 | On a fresh table, create, read, update and delete work in sequence. The read returns the created post. The update keeps the id and changes the title. After the delete, the read returns nothing. |

## Left out

- HTTP handlers, routing, the bearer-token middleware, logging and start-up wiring are not part of this model.
- The handlers map `Ok(None)` to 404 and `Err(_)` to 500 (for example in `get_category` at `src/handler/category.rs:19-37`: `Ok(None)` → 404 at line 28, `Err(_)` → 500 at line 32). The services never answer `Ok(None)`, so in the handlers an absent resource reaches the 500 branch. This behaviour is not modelled.
- The category, comment and user repositories are not part of this model. Their services take a repository record, so storage may answer anything.
- Password hashing and token signing are records of function values. The model makes no claims about salt uniqueness, signatures, expiry or tamper rejection. It states only how the services use their answers.
- Storage failures of the in-memory tables are not modelled. `UserTable` fails only on a duplicate email, and `PostTable` fails only on a missing id.
- Auth.UserTable.CreateUser: fails only on a duplicate email, never with another storage error.
- Auth.AuthService.RegisterUser: the storage errors that `?` propagates at `src/service/auth.rs:20` and `:38` do not occur in the model.
- Auth.AuthService.LoginUser: the storage error that `?` propagates at `src/service/auth.rs:47` does not occur in the model.
- Auth.AuthService.RegisterUser: a registration running concurrently between the email check and the insert is not modelled. In this sequential model the insert cannot fail after the check.
- Auth.AuthService.LoginUser: the password comparison is modelled as failing on a mismatch or a malformed stored hash. The source checks only whether it failed.
- Posts.PostTable.GetAllPosts: storage returns rows in an order it chooses. The model fixes that order to ascending id.
- Posts.PostTable.CreatePost: ids are unbounded integers. The 32-bit width of the id column and any overflow of it are not modelled.
- Posts.PostTable.GetPostRelation: the comment table is a parameter, not state of the post table. The query's storage error (`?` at `src/repository/posts.rs:35`) does not occur in the model.
- Posts.PostTable.GetAllPosts: cannot fail, whereas `src/repository/posts.rs:23` can return a storage error.
- Posts.PostTable.GetPost: cannot fail, whereas `src/repository/posts.rs:27` can return a storage error.
- Posts.PostTable.CreatePost: always succeeds, whereas the insert at `src/repository/posts.rs:60` can return a storage error.
- Posts.PostTable.UpdatePost: fails only with `RecordNotFound`. The lookup and update errors at `src/repository/posts.rs:66` and `:77` do not occur in the model.
- Posts.PostTable.DeletePost: fails only with `RecordNotFound`. The lookup and delete errors at `src/repository/posts.rs:83` and `:86` do not occur in the model.
- ORM behaviour (active models, transactions, asynchronous calls) is replaced by map updates that each take effect at once.
- Request validation and the full column sets of the database entities are not modelled. The model keeps only the fields the core reads or writes.
