# Blog server, client library and CLI — a Dafny model

This project models the command layer of a small blog system, and proves properties of the model.

- **Server.** An actix-web HTTP API and a tonic gRPC service sit over the same application services.
  Those services sit over a PostgreSQL posts table and users table.
- **Client library.** It talks to either server, over HTTP or over gRPC.
- **CLI.** It drives the client library.

What the model covers:

- the error taxonomy and its two wire encodings;
- the services' re-classification of repository errors;
- the two tables, as in-memory stores that follow the SQL the repositories run;
- token resolution and the ownership check, in both adapters;
- the conversions between the domain post and the gRPC message;
- configuration from the environment;
- the client's response classification and request building;
- the client's transport dispatch and token state;
- the CLI's address normalisation and token saving.

Where the source mutates state, the model is imperative:

- The tables are classes: `PostRepository.PostTable` and `UserRepository.UserTable`.
- The services and handlers are methods that modify those tables.
- The client is the class `BlogClient.BlogClient`.
- The CLI's token file is the class `Cli.TokenFile`.

Each such method is specified against pure functions, for example:

- `PostRepository.LastPosts`, `PostRepository.Insert` and `PostRepository.RemoveId`;
- `UserRepository.CreateOutcome`;
- `Authentication.Login`;
- `GrpcService.Caller`.

Lemmas then prove what the source promises about those functions.

Values the source takes from outside are parameters:

- the clock (`now`);
- random ids and salts;
- a storage failure for the one query a request makes (`dbError`, `readError`, `writeError`);
- the outcome of connecting a gRPC channel (`connect`);
- the network: `HttpClient.Exchange` maps a request to a reply, and `BlogClient.GrpcBackend` holds the seven remote calls.

JWT and argon2 are oracles (`Security.JwtOracle`, `Security.PasswordOracle`). Their laws come from the unit tests in blog_server/src/infrastructure/security.rs. Concrete lawful instances show that the laws are consistent.

`Wire` connects the server's JSON bodies to the client's reads. It shows that over HTTP the client receives the same gRPC messages the gRPC service sends for the same result, with one exception, described under Findings.

## Model

| member | source | states |
|---|---|---|
| Errors.ToBlogError | blog_server/src/domain/error.rs:83-93 | UserNotFound becomes NotFound("user not found") and PostNotFound becomes NotFound("Post not found"). Validation and Internal keep their text. Forbidden maps to Forbidden, and nothing maps to Unautorized. |
| Errors.ErrorResponse | blog_server/src/domain/error.rs:62-81 | The response carries `status_code` and exactly the `{"error": …}` body of the error, with a 4xx or 5xx status. |
| Errors.StatusCodesDistinct | blog_server/src/domain/error.rs:51-60 | Two errors share an HTTP status iff they are the same variant. The statuses are 400/401/403/404/500. |
| Errors.GrpcCodesDistinct | blog_server/src/domain/error.rs:95-105 | Two errors share a gRPC code iff they are the same variant. No error maps to Ok. |
| Errors.EncodingsAgree | blog_server/src/domain/error.rs:51-60 | For every error, the HTTP status and the gRPC code correspond: 400↔InvalidArgument, 401↔Unauthenticated, 403↔PermissionDenied, 404↔NotFound, 500↔Internal. Both directions hold. |
| Errors.ErrorBodyDetails | blog_server/src/domain/error.rs:44-49 | `details` is present iff the error is Validation or NotFound, and then it is `{"resource": <text>}`. |
| Errors.ErrorBodyMessage | blog_server/src/domain/error.rs:62-81 | `error` is the variant's display text, e.g. "Internal: <detail>" or "Not found: <resource>". |
| Errors.StatusMessages | blog_server/src/domain/error.rs:95-105 | The gRPC message carries the payload for Validation, NotFound and Internal. Forbidden carries "Forbiden" and Unautorized carries "Unautorized". |
| Errors.DomainNotFoundEncodings | blog_server/src/domain/error.rs:83-93 | A missing user or post is 404 over HTTP and NotFound over gRPC. |
| BlogService.AsInternal | blog_server/src/application/blog_service.rs:26 | A repository error becomes Internal, carrying the error's display text. |
| BlogService.Reclassification | blog_server/src/application/blog_service.rs:23-79 | Listing and deleting turn every repository error into Internal, including delete's NotFound. A lookup is NotFound("Posts not found") exactly for NotFound. Create is NotFound exactly for AutorNotFound. A database error is Internal("Database error: …") everywhere. |
| BlogService.BlogService.GetNextPosts | blog_server/src/application/blog_service.rs:23-28 | The result is `get_last_posts(count, Some(offset))` with errors as Internal. A page holds at most `count` posts, newest first. |
| BlogService.BlogService.GetPostsByUser | blog_server/src/application/blog_service.rs:30-41 | The result is exactly the author's posts, or Internal on a storage failure. |
| BlogService.BlogService.GetPostById | blog_server/src/application/blog_service.rs:43-51 | The result is the row with that id, or NotFound("Posts not found"). A storage failure is Internal. |
| BlogService.BlogService.CreatePost | blog_server/src/application/blog_service.rs:53-62 | The new post, with the next id and the clock reading, is inserted and returned. With a storage failure the table is unchanged. |
| BlogService.BlogService.UpdatePost | blog_server/src/application/blog_service.rs:64-72 | The update addresses `post.id`. Only that row changes. A missing id is Internal (the repository's RowNotFound). |
| BlogService.BlogService.DeletePost | blog_server/src/application/blog_service.rs:74-79 | The row is removed. A missing id is Internal("Post not found") and changes nothing. |
| BlogService.IdLocatesRow | blog_server/src/data/posr_repository.rs:92-121 | With unique ids, looking up a stored post's id finds exactly that post. |
| BlogService.MissingPostEncodings | blog_server/src/application/blog_service.rs:43-79 | A missing post is 404/NotFound on lookup. It is 500/Internal on update and on delete. |
| PostRepository.IndexOfId | blog_server/src/data/posr_repository.rs:92-121 | The index found holds that id, and None means no row has it. |
| PostRepository.IndexOfIdUnique | blog_server/src/data/posr_repository.rs:92-121 | With unique ids, the lookup returns the row's own index. |
| PostRepository.InsertPositionSplits | blog_server/src/data/posr_repository.rs:58-90 | The insertion point keeps every earlier row no later than the new post, and every following row later. |
| PostRepository.InsertKeepsOrder | blog_server/src/data/posr_repository.rs:58-90 | An insert keeps the table in `created_at` order and adds exactly the new row. |
| PostRepository.RemoveId | blog_server/src/data/posr_repository.rs:227-243 | Deleting removes exactly the rows with that id and keeps every other row. |
| PostRepository.RemoveIdKeepsOrder | blog_server/src/data/posr_repository.rs:227-243 | Deleting keeps the `created_at` order. |
| PostRepository.RemoveIdFacts | blog_server/src/data/posr_repository.rs:227-243 | After a delete the id is gone. Deleting an absent id changes nothing. |
| PostRepository.RemoveIdOfAbsent | blog_server/src/data/posr_repository.rs:234-241 | No row affected means the table is unchanged. |
| PostRepository.Page | blog_server/src/data/posr_repository.rs:146-151 | OFFSET/LIMIT: at most `limit` rows; none past the end; exactly `limit` when enough rows follow. |
| PostRepository.ByAuthor | blog_server/src/data/posr_repository.rs:160-187 | The result is exactly the rows whose author matches. |
| PostRepository.UpdatedRow | blog_server/src/data/posr_repository.rs:203-208 | COALESCE: a given title or content replaces the old one, an absent one keeps it. `updated_at` is the clock reading. id, author and created_at never change. |
| PostRepository.NewestFirstDescending | blog_server/src/data/posr_repository.rs:128-151 | `ORDER BY created_at DESC` gives a descending permutation of the table. |
| PostRepository.LastPostsPage | blog_server/src/data/posr_repository.rs:123-158 | A successful listing holds at most `len` posts, newest first, all from the table. The i-th post is the (offset+i)-th newest, and a None offset counts as 0. |
| PostRepository.PostTable.constructor | blog_server/src/data/posr_repository.rs:51-53 | The table starts empty, and ids start at 1. |
| PostRepository.PostTable.CreatePost | blog_server/src/data/posr_repository.rs:58-90 | One row is added, with exactly the given title, content and author, and returned. Other rows and a failing call leave the table as it was. |
| PostRepository.PostTable.GetPost | blog_server/src/data/posr_repository.rs:92-121 | The call succeeds iff a row has the id, and then returns it. Otherwise it is NotFound. |
| PostRepository.PostTable.GetLastPosts | blog_server/src/data/posr_repository.rs:123-158 | The result is `LastPosts`: at most `len` posts, descending, from the table. |
| PostRepository.PostTable.GetPostsByAuthor | blog_server/src/data/posr_repository.rs:160-187 | The result is exactly the author's posts, in both directions. |
| PostRepository.PostTable.UpdatePost | blog_server/src/data/posr_repository.rs:189-225 | Only the row with that id is replaced, by `UpdatedRow`. A missing id is a DatabaseError (RowNotFound), not NotFound. |
| PostRepository.PostTable.DeletePost | blog_server/src/data/posr_repository.rs:227-243 | The row is removed. NotFound when no row is affected, and then the table is unchanged. |
| PostRepository.RemoveIdKeepsIds | blog_server/src/data/posr_repository.rs:227-243 | Deleting keeps ids unique. |
| PostRepository.FindAfterInsert | blog_server/src/data/posr_repository.rs:58-90 | After an insert the new id is unique and is found at the new row. |
| PostRepository.FindAfterUpdate | blog_server/src/data/posr_repository.rs:189-225 | After an update the row is found at the same index, and other ids are found as before. |
| UserRepository.StorageError | blog_server/src/data/user_repository.rs:33 | A storage failure is Internal("database error: …"). |
| UserRepository.Conflict | blog_server/src/data/user_repository.rs:36-46 | The pre-check finds a row sharing the username or email, and None iff there is none. |
| UserRepository.CreateOutcomeRejects | blog_server/src/data/user_repository.rs:36-56 | Rejection is Validation iff some row shares the username or email. "email exists" implies only the email collided. An email-free username collision gives "Username exists". |
| UserRepository.AcceptedKeepsKeysUnique | blog_server/src/data/user_repository.rs:36-70 | An accepted insert keeps usernames and emails unique. |
| UserRepository.UserTable.constructor | blog_server/src/data/user_repository.rs:21-23 | The table starts empty. |
| UserRepository.UserTable.CreateUser | blog_server/src/data/user_repository.rs:28-73 | A rejected user inserts nothing. An accepted one appends exactly that user, stamped with the clock. Uniqueness is preserved. |
| UserRepository.UserTable.GetUserById | blog_server/src/data/user_repository.rs:75-89 | The call succeeds iff a user has the id. Otherwise it is UserNotFound. |
| UserRepository.UserTable.GetUserByUsername | blog_server/src/data/user_repository.rs:91-106 | The call succeeds iff a user has the name. Otherwise it is UserNotFound. |
| UserRepository.UserTable.GetUserByEmail | blog_server/src/data/user_repository.rs:108-122 | The call succeeds iff a user has the email. Otherwise it is UserNotFound. |
| UserRepository.UsernameDeterminesUser | blog_server/src/data/user_repository.rs:91-106 | With unique keys, the lookup by a stored user's name returns that user. |
| Security.VerifyGeneratedToken | blog_server/src/infrastructure/security.rs:76-92 | Verifying a token generated for a user gives back that user's id as subject. |
| Security.ForeignTokenRejected | blog_server/src/infrastructure/security.rs:93-105 | A token made with another secret does not verify. |
| Security.ExampleJwtLawful | blog_server/src/infrastructure/security.rs:76-105 | The JWT laws are satisfiable, by a concrete oracle. |
| Security.ExamplePasswordsLawful | blog_server/src/infrastructure/security.rs:57-70 | The password law (a hash verifies its password) is satisfiable. |
| Authentication.LoginCases | blog_server/src/application/auth_service.rs:31-54 | An unknown name is NotFound("user not found"). Failures are NotFound, Unautorized or Internal. Success means a stored user with that name and a verifying password, and a token that verifies to the user's id. |
| Authentication.LoginRefusesBadPassword | blog_server/src/application/auth_service.rs:38-43 | A wrong password, or a malformed stored hash, is Unautorized. |
| Authentication.AuthService.constructor | blog_server/src/application/auth_service.rs:19-21 | The service holds the repository and the keys. |
| Authentication.AuthService.GetUser | blog_server/src/application/auth_service.rs:27-29 | The result is the user with that id, or NotFound("user not found"). |
| Authentication.AuthService.LoginByUsername | blog_server/src/application/auth_service.rs:31-54 | The result is `Login` on the table. An unknown name is NotFound. On success the answer is for a stored user of that name. |
| Authentication.AuthService.Register | blog_server/src/application/auth_service.rs:56-61 | The stored row holds the given username and email and the hash of the password, never the password. Hash failure is Internal. Rejections come back as Validation, and the table is unchanged then. |
| Authentication.RegisterRejectionIsValidation | blog_server/src/application/auth_service.rs:60 | A duplicate username or email is Validation("Username exists") or Validation("email exists"). |
| Authentication.LoginAfterRegister | blog_server/src/application/auth_service.rs:31-61 | Logging in right after registering succeeds with a token for the new id, and the token verifies to that id. |
| Authentication.FindFirstAfterAppend | blog_server/src/data/user_repository.rs:91-106 | A user whose name is new is found by name after being appended. |
| AuthGuard.ResolveToken | blog_server/src/presentation/auth.rs:27-44 | Every failure is Unautorized. Success holds iff the token verifies, its subject parses as a UUID, storage works, and a user has that id. The id returned is the subject. |
| AuthGuard.ExtractUserFromToken | blog_server/src/presentation/auth.rs:27-44 | The result is `ResolveToken` on the table. Failures are Unautorized, and success names a stored user. |
| AuthGuard.IssuedTokenResolves | blog_server/src/presentation/auth.rs:27-44 | A token issued to a stored user resolves to that user. |
| AuthGuard.ForeignTokenUnauthorized | blog_server/src/presentation/auth.rs:31-34 | A token signed with another secret is Unautorized. |
| AuthGuard.TokenOfUnknownUserUnauthorized | blog_server/src/presentation/auth.rs:38-41 | A valid token for an id with no user is Unautorized. |
| AuthGuard.FromRequest | blog_server/src/presentation/auth.rs:19-24 | The extension's user is returned, and a missing one is a 401 "missing authenticated user". |
| Posts.FromTimestamp | blog_server/src/domain/post.rs:54-56 | `from_timestamp` succeeds exactly inside chrono's range, with no sub-second part. |
| Posts.FromTimestampBounds | blog_server/src/domain/post.rs:54-56 | The first and last accepted seconds are those of -262143-01-01T00:00:00 and +262142-12-31T23:59:59, and one second beyond either is refused. |
| Posts.FromTimestampOfTimestamp | blog_server/src/domain/post.rs:54-56 | Seconds and back lose only the sub-second part. |
| Posts.NewPost | blog_server/src/domain/post.rs:33-42 | The post keeps id, title, content and author, takes `created_at` from the clock, and has no `updated_at`. |
| Posts.ToGrpc | blog_server/src/domain/post.rs:62-72 | The message copies id, title and content. The author is its UUID string, which parses back to the author. `created_at` is whole seconds, and `updated_at` maps element-wise. |
| Posts.FromGrpc | blog_server/src/domain/post.rs:45-60 | The call succeeds iff the author parses and `created_at` is representable, and each failure gives its Validation. On success `updated_at` is Some(created_at) whatever the message said. |
| Posts.FromCreateRequest | blog_server/src/domain/post.rs:75-82 | Title and content are kept. |
| Posts.GrpcRoundTrip | blog_server/src/domain/post.rs:45-72 | Domain to gRPC and back keeps id, title, content and author. `created_at` is kept to whole seconds. `updated_at` is replaced by the creation time. |
| Posts.GrpcRoundTripSetsUpdatedAt | blog_server/src/domain/post.rs:57 | A never-updated post comes back with `updated_at` set. |
| Posts.NewPostToGrpc | blog_server/src/domain/post.rs:33-72 | A new post goes out without `updated_at`, stamped with the clock, and converts back. |
| Posts.PostJsonFields | blog_server/src/domain/post.rs:9-19 | The serde form carries the id, the author as its UUID string, and `created_at` in seconds. |
| Uuids.ParseToString | blog_server/src/domain/post.rs:52-53 | `Uuid::parse_str` reads back what `to_string` wrote. |
| Uuids.ToStringInjective | blog_server/src/domain/post.rs:66 | Distinct ids render differently. |
| Proto.LenAsI32 | blog_server/src/presentation/grpc_service.rs:157 | `len() as i32` wraps modulo 2^32 into the i32 range, and is the length itself when that fits. |
| Protect.EnsureOwner | blog_server/src/presentation/handlers/protect.rs:22-28 | Ok iff the post's author is the authenticated user, and Forbidden otherwise. |
| Protect.CreatePost | blog_server/src/presentation/handlers/protect.rs:30-49 | The authenticated user is recorded as author, without an ownership check. The reply is 201 with the new post. A failed write is Internal "Database error: …" with the store unchanged. |
| Protect.UpdatePost | blog_server/src/presentation/handlers/protect.rs:51-75 | Any failure leaves the store unchanged. A failed read or a failed owner's write is Internal "Database error: …". A missing id is NotFound before any check. A non-owner gets Forbidden. The owner's row gets the payload's title and content in full, and 200 with it. |
| Protect.DeletePost | blog_server/src/presentation/handlers/protect.rs:77-98 | Any failure deletes nothing. A failed read or a failed owner's write is Internal "Database error: …". A missing id is NotFound, and a non-owner gets Forbidden. The owner's row is removed, and the reply is `{"post": id, "delete": true}`. |
| Protect.RefusalsOnTheWire | blog_server/src/presentation/handlers/protect.rs:60-88 | The handlers' refusals are 403 and 404. Forbidden over gRPC is PermissionDenied "Forbiden". |
| Public.LoginResponse | blog_server/src/presentation/handlers/public.rs:53-62 | Success gives 200 with `{token, uuid}`. Errors pass through unchanged. |
| Public.Register | blog_server/src/presentation/handlers/public.rs:29-46 | A failed registration is returned as it is, with no login attempted and no user added: a hashing failure is Internal, a storage failure or a username or email collision is the repository error re-classified. A successful one appends the user and answers with the immediate login's token and uuid. |
| Public.RegisterThenLogin | blog_server/src/presentation/handlers/public.rs:36-45 | With lawful oracles, an accepted registration answers 200 with a token for the new id, and the token verifies to that id. |
| Public.Login | blog_server/src/presentation/handlers/public.rs:48-63 | The reply is `login_by_username`'s answer. An unknown name is NotFound. |
| Public.GetPostById | blog_server/src/presentation/handlers/public.rs:65-77 | A found post is wrapped as `{"post": post}`. NotFound and storage errors propagate. |
| Public.Pagination | blog_server/src/presentation/dto.rs:12-25 | Omitted limit and offset are 10 and 0, and given values are kept. |
| Public.GetPost | blog_server/src/presentation/handlers/public.rs:79-98 | The page is `get_next_posts(offset, limit)`. `total` is its length as i32, and limit and offset are echoed. |
| Public.ListingShowsPage | blog_server/src/presentation/handlers/public.rs:84-96 | With an i32 limit, listing succeeds iff limit and offset are non-negative, and fails as Internal otherwise. On success there are at most `limit` posts, newest first, from the table, and `total` is their exact number. |
| GrpcService.ExtractTokenFromMetadata | blog_server/src/presentation/grpc_service.rs:165-177 | No `authorization` is Unauthenticated "Token not found". A value that is not visible ASCII is InvalidArgument. A visible value without the "Bearer " prefix is InvalidArgument "invalid authorization header". Success means the value is exactly "Bearer " + token. |
| GrpcService.BearerTokenExtracted | blog_server/src/presentation/grpc_service.rs:170-173 | "Bearer " + t, for visible t, yields t. |
| GrpcService.Caller | blog_server/src/presentation/grpc_service.rs:73-83 | Extraction first, then token resolution as a Status. Failures are Unauthenticated or InvalidArgument. |
| GrpcService.IssuedTokenIdentifiesCaller | blog_server/src/presentation/grpc_service.rs:73-83 | A token issued to a stored user identifies that user. |
| GrpcService.MergeUpdate | blog_server/src/presentation/grpc_service.rs:113-116 | An omitted title or content keeps the stored one. |
| GrpcService.EmptyUpdateKeepsText | blog_server/src/presentation/grpc_service.rs:113-116 | An update with neither field changes only `updated_at`. |
| GrpcService.TokenReply | blog_server/src/presentation/grpc_service.rs:60-71 | A login answer becomes `AuthResponse{token}`, and its error becomes that error's Status. |
| GrpcService.GrpcPosts | blog_server/src/presentation/grpc_service.rs:151-160 | Each listed post is converted, in order. |
| GrpcService.BlogGrpcService.constructor | blog_server/src/presentation/grpc_service.rs:22-32 | The service holds both application services. |
| GrpcService.BlogGrpcService.Authenticate | blog_server/src/presentation/grpc_service.rs:73-83 | The result is `Caller` on the users table. |
| GrpcService.BlogGrpcService.Register | blog_server/src/presentation/grpc_service.rs:36-58 | A successful registration appends the user and answers with the login's token. A failed one changes nothing and gives the exact status: Internal for a hashing failure, the re-classified repository error for a storage failure or a collision. |
| GrpcService.BlogGrpcService.Login | blog_server/src/presentation/grpc_service.rs:60-71 | The reply is `TokenReply` of `Login`. |
| GrpcService.BlogGrpcService.CreatePost | blog_server/src/presentation/grpc_service.rs:73-87 | The token-resolved user is the author. A refused caller changes nothing. A failed write is Internal "Database error: …" with the store unchanged. |
| GrpcService.BlogGrpcService.GetPost | blog_server/src/presentation/grpc_service.rs:89-97 | The post's message, or NotFound "Posts not found", or Internal. |
| GrpcService.BlogGrpcService.UpdatePost | blog_server/src/presentation/grpc_service.rs:99-122 | Any failure leaves the store unchanged. A failed read or a failed owner's write is Internal. A non-owner is PermissionDenied. The owner's row gets the merged fields. |
| GrpcService.BlogGrpcService.DeletePost | blog_server/src/presentation/grpc_service.rs:124-143 | A failed read or a failed owner's write is Internal. A non-owner is PermissionDenied with nothing deleted. The owner gets `success: true` and the row is removed. |
| GrpcService.BlogGrpcService.ListPost | blog_server/src/presentation/grpc_service.rs:145-162 | The page is `get_next_posts(offset, limit)` converted. `total` is its length as i32, and limit and offset are echoed. |
| GrpcService.OwnershipRefusalDiffers | blog_server/src/presentation/grpc_service.rs:106-111 | The gRPC ownership refusal has Forbidden's code but its own message. |
| Config.VarOr | blog_server/src/infrastructure/config.rs:20-28 | A variable's value, or the default when it is unset. |
| Config.TrimmedNonEmpty | blog_server/src/infrastructure/config.rs:48-53 | The kept items are non-empty and have no outer whitespace. |
| Config.TrimAddsNoComma | blog_server/src/infrastructure/config.rs:48-53 | Trimming adds no comma. |
| Config.TrimmedNonEmptyAddsNoComma | blog_server/src/infrastructure/config.rs:48-53 | Items of a split contain no comma after trimming. |
| Config.CorsOrigins | blog_server/src/infrastructure/config.rs:48-53 | Every origin is non-empty, trimmed and comma-free. |
| Config.TrimClean | blog_server/src/infrastructure/config.rs:48-53 | A clean origin is its own trim. |
| Config.CorsOriginsOfJoin | blog_server/src/infrastructure/config.rs:48-53 | Joining clean origins with ',' and parsing gives them back. |
| Config.TrimmedNonEmptyOfClean | blog_server/src/infrastructure/config.rs:48-53 | Clean items pass the filter unchanged. |
| Config.FromEnv | blog_server/src/infrastructure/config.rs:16-63 | Success holds iff both ports parse as u16, DATABASE_URL and JWT_SECRET are set, the secret has at least 32 bytes, and the expiration parses. The addresses are host:port, the secret is unchanged, and the origins come from the CORS parse. |
| Config.FromEnvErrors | blog_server/src/infrastructure/config.rs:21-47 | Each failure gives its own message, in the source's order of checks. |
| Config.PortInAddress | blog_server/src/infrastructure/config.rs:55-57 | A given port appears in `http_addr` after the host. |
| Config.Defaults | blog_server/src/infrastructure/config.rs:20-53 | With all optional variables unset, the addresses are 127.0.0.1:3000 and 127.0.0.1:50051, the expiration is 1440, and the origins are ["*"]. |
| Config.DefaultValues | blog_server/src/infrastructure/config.rs:20-53 | The default strings parse to 3000, 50051 and 1440, and "*" parses to ["*"]. |
| Text.ParseU16 | blog_server/src/infrastructure/config.rs:21-28 | `u16::from_str`: the result is in range, and the errors are Rust's. |
| Text.Utf8Len | blog_server/src/infrastructure/config.rs:35-41 | `String::len` counts UTF-8 bytes. |
| HttpClient.ClassifyAuth | blog_client/src/http_client.rs:43-53 | Ok iff the status is a success and the body reads. A success with an unreadable body is Unauthorized. Any other status is Internal("Server responce: <status>"). |
| HttpClient.ClassifyWrite | blog_client/src/http_client.rs:102-109 | Ok iff the status is a success and the body reads, and Internal with the status otherwise. |
| HttpClient.ClassifyRead | blog_client/src/http_client.rs:169-176 | A non-success status is NotFound. A success with an unreadable body is Internal. |
| HttpClient.ClassificationsAgree | blog_client/src/http_client.rs:43-192 | The three classifications accept the same replies, and differ only in the error they give. |
| HttpClient.AuthHeader | blog_client/src/http_client.rs:196-198 | The header is "Bearer " + token, and the token is recovered by stripping the prefix. |
| HttpClient.RegisterRequest | blog_client/src/http_client.rs:31 | POST to "{addr}/api/auth/register", with no authorization. |
| HttpClient.LoginRequest | blog_client/src/http_client.rs:57 | POST to "{addr}/api/auth/login". |
| HttpClient.CreatePostRequest | blog_client/src/http_client.rs:87 | POST to "{addr}/protect/post", with the bearer header. |
| HttpClient.UpdatePostRequest | blog_client/src/http_client.rs:119-124 | PUT to "{addr}/protect/post/{id}", with a body whose id equals the path id. |
| HttpClient.DeletePostRequest | blog_client/src/http_client.rs:149 | DELETE to "{addr}/protect/post/{id}", with the bearer header. |
| HttpClient.GetPostRequest | blog_client/src/http_client.rs:167 | GET "{addr}/api/posts/{id}". |
| HttpClient.ListPostsRequest | blog_client/src/http_client.rs:183 | GET "{addr}/api/posts?limit=L&offset=O". |
| HttpClient.Register | blog_client/src/http_client.rs:25-54 | A transport failure is HttpError. A reply goes through the auth classification. |
| HttpClient.Login | blog_client/src/http_client.rs:56-79 | A transport failure is HttpError. A reply goes through the auth classification. |
| HttpClient.CreatePost | blog_client/src/http_client.rs:81-110 | A success wraps the post as `PostResponse{post: Some}`, and other replies are Internal with the status. |
| HttpClient.UpdatePost | blog_client/src/http_client.rs:112-142 | A success wraps the post as `PostResponse{post: Some}`, and other replies are Internal with the status. |
| HttpClient.DeletePost | blog_client/src/http_client.rs:144-164 | As written: the body must read as `DeletePostResponse`. |
| HttpClient.DeletePostAcknowledged | blog_client/src/http_client.rs:144-164 | The delete command with the server's acknowledgement read by its `delete` member. |
| HttpClient.GetPost | blog_client/src/http_client.rs:166-177 | A transport failure is HttpError. A reply goes through the read classification. |
| HttpClient.ListPosts | blog_client/src/http_client.rs:178-193 | A transport failure is HttpError. A reply goes through the read classification. |
| Wire.PostJsonReadsAsGrpc | blog_client/src/http_client.rs:102-109 | The client reads the server's JSON post as exactly the gRPC message for that post. |
| Wire.LoginOverHttp | blog_client/src/http_client.rs:56-79 | Over HTTP, a login gives the same `AuthResponse` the gRPC service sends. A refusal carries the server's status. |
| Wire.GetPostOverHttp | blog_client/src/http_client.rs:166-177 | Reading a post over HTTP gives the gRPC service's message, and any refusal is NotFound. |
| Wire.CreatePostOverHttp | blog_client/src/http_client.rs:81-110 | Creating over HTTP gives the gRPC service's message, and a refusal carries the status. |
| Wire.UpdatePostOverHttp | blog_client/src/http_client.rs:112-142 | Updating over HTTP gives the gRPC service's message, and a refusal carries the status. |
| Wire.PostArrayReads | blog_client/src/http_client.rs:185-192 | A JSON array of posts reads as their gRPC messages, in order. |
| Wire.ListJsonReadsAsGrpc | blog_client/src/http_client.rs:185-192 | The server's listing reads as the gRPC `ListPostsResponse` for the same page. |
| Wire.ListPostsOverHttp | blog_client/src/http_client.rs:178-193 | Listing over HTTP gives the gRPC service's message, and any refusal is NotFound. |
| Wire.DeleteAckUnread | blog_client/src/http_client.rs:157-163 | The server's delete body does not read as `DeletePostResponse`. A delete the server performed comes back as Internal("Server responce: 200 OK"). |
| Wire.DeleteAckRead | blog_server/src/presentation/handlers/protect.rs:97 | Read by `delete`, the acknowledgement gives `DeletePostResponse{success: true}`, as over gRPC. |
| BlogClient.BlogClient.New | blog_client/src/lib.rs:63-88 | Http sets only the HTTP backend. Grpc sets only the gRPC backend, or fails with the connection error. The token starts as None. |
| BlogClient.BlogClient.SetToken | blog_client/src/lib.rs:90-92 | The token becomes Some(t), so `GetToken` yields Some(t). |
| BlogClient.BlogClient.Register | blog_client/src/lib.rs:98-120 | The call goes to the transport's backend, or fails with "Http client not set" / "Grpc client not set". The method has no `modifies`, so the token is untouched. |
| BlogClient.BlogClient.Login | blog_client/src/lib.rs:122-143 | The call goes to the transport's backend, and the token is untouched. |
| BlogClient.BlogClient.CreatePost | blog_client/src/lib.rs:145-171 | With no token the result is Unauthorized, whatever the network. Otherwise the stored token goes unchanged to the transport's backend. |
| BlogClient.BlogClient.UpdatePost | blog_client/src/lib.rs:173-200 | With no token the result is Unauthorized. Otherwise the stored token goes to the transport's backend. |
| BlogClient.BlogClient.DeletePost | blog_client/src/lib.rs:202-224 | With no token the result is Unauthorized. Otherwise the stored token goes to the transport's backend, over HTTP the as-written `HttpClient.DeletePost`. |
| BlogClient.BlogClient.GetPost | blog_client/src/lib.rs:226-243 | The call goes to the transport's backend. |
| BlogClient.BlogClient.ListPosts | blog_client/src/lib.rs:245-266 | The call goes to the transport's backend, with offset and limit in the gRPC request. |
| Cli.ArgsOf | blog_cli/src/command.rs:5-21 | `--server` and `--port` default to 127.0.0.1 and 8081. |
| Cli.ListOf | blog_cli/src/command.rs:113-122 | `list` defaults to limit 10 and offset 0. |
| Cli.Normalized | blog_cli/src/main.rs:10-12 | The address always starts with "http://". One that already has it is kept. |
| Cli.NormalizedIdempotent | blog_cli/src/main.rs:10-12 | Normalising twice is normalising once. |
| Cli.NormalizedKeepsAddress | blog_cli/src/main.rs:10-12 | "http://" is prepended iff absent, and the rest is the address given. |
| Cli.PortFor | blog_cli/src/main.rs:16-19 | With `--grpc`, 8081 becomes 50051 and other ports are kept. Without it the port is kept. |
| Cli.TransportFor | blog_cli/src/main.rs:13-21 | The transport is Grpc iff `--grpc`, with url normalised-server:port. |
| Cli.TransportUrl | blog_cli/src/main.rs:13-21 | The url carries the scheme. HTTP is server:port, and gRPC on the default port is server:50051. |
| Cli.ChooseTransport | blog_cli/src/main.rs:10-21 | The reassignments in `main` compute `TransportFor`. |
| Cli.TokenFile.Save | blog_cli/src/security.rs:13-20 | The file then holds exactly the token. |
| Cli.Run | blog_cli/src/main.rs:23-93 | The client has the chosen transport and starts with the saved token exactly when the file exists. The answer is `Outcome` of the command: the transport's backend call with the saved token. Only a successful Register or Login writes the file, with the token received. A write without a saved token is Unauthorized. |
| Cli.Dispatch | blog_cli/src/main.rs:28-87 | Each command makes its own call on the client, and the answer is `Outcome` of the client's transport and token. |
| Cli.OutcomeToken | blog_cli/src/main.rs:28-87 | Only the writes depend on the token, and a write without one is Unauthorized. Only a sign-in answers with an auth reply. |

## Left out

- JWT signing and argon2 hashing are oracles. Only the laws from the unit tests are assumed of them, as `requires`. The claims carry only `sub`, because `exp` and `iat` need the wall clock.
- The clock, `Uuid::new_v4` and the argon2 salt are parameters.
- The model has no concurrency. The two servers run side by side (`tokio::select!`), and requests can race on the tables; the model treats one request at a time.
- Each request makes at most one storage call that can fail, and given as a parameter. Connection-pool behaviour and SQL text are not modelled.
- Post ids are unbounded. The i64 overflow of the sequence is not modelled, nor are sequence values consumed by failed inserts.
- The foreign key from post to author is covered by the `writeError` parameter; no separate author check is made.
- Rows with equal `created_at` are ordered later-insert first. PostgreSQL leaves that order unspecified.
- `Uuids.Parse` accepts the simple, hyphenated, braced and urn forms. The uuid crate's exact error texts are replaced by one message per kind.
- `HttpClient.ReasonPhrase` lists only the common status codes. Others print "<unknown status code>".
- `JwtAuthMiddleware`, which extracts the HTTP bearer token, is not part of this model. Only the `AuthenticatedUser` extension it leaves is modelled.
- The server's deserialisation of request bodies and query strings is not modelled. For example, the HTTP update body the client sends with a `null` title is refused before the handler runs.
- The `/health` route is not modelled. Nor are logging, server wiring or the CORS middleware setup.
- gRPC metadata holds one value per key.
- JSON objects keep their fields in declaration order. serde_json's map ordering makes no difference to any read in the model.
- The gRPC client (blog_client/src/grpc_client.rs) is a record of remote calls. The insertion of its "Bearer " metadata and the `InvalidMetadataValue` failure are not modelled.
- The CLI models neither printing (`print_post`, `println!`) nor the token file's path or I/O errors (`read_token`, `save_token`).
- The `.env` file loading is not modelled. The environment is an input map.
- BlogClient.BlogClient.DeletePost: over HTTP it dispatches to the as-written `HttpClient.DeletePost`, so the client library and `blog delete` inherit the Finding below. The corrected `HttpClient.DeletePostAcknowledged` is proved beside it but is not what the client calls.
- UserRepository.UserTable.CreateUser: when the username matches one row and the email another, the model reports the message of the first of them in storage order. The query at blog_server/src/data/user_repository.rs:36-41 has no ORDER BY, so PostgreSQL may return either row. `UserRepository.CreateOutcomeRejects` holds whichever row is returned.

## Findings

| source | as written | input that shows it | evidently intended | confidence | as-written member | corrected member |
|---|---|---|---|---|---|---|
| blog_client/src/http_client.rs:157-163 | The reply to a delete must deserialize as `DeletePostResponse { success }`. The HTTP server answers a successful delete with `{"post": id, "delete": true}` (blog_server/src/presentation/handlers/protect.rs:97), which has no `success` field. | The author deletes an existing post over HTTP. The server answers 200 with `{"post": 1, "delete": true}`, and the client returns `Internal("Server responce: 200 OK")`. | The client reads the acknowledgement and returns `DeletePostResponse { success: true }`, as the gRPC service does. | medium, not executed | Wire.DeleteAckUnread (about HttpClient.DeletePost) | HttpClient.DeletePostAcknowledged, proved by Wire.DeleteAckRead |
