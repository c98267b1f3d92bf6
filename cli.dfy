/**
 * The command-line front end (blog_cli/src/main.rs with the arguments of
 * blog_cli/src/command.rs): the server address is normalised, the transport
 * chosen, a saved token loaded into the client, one command run, and the
 * token a registration or login returns saved. The token file
 * (blog_cli/src/security.rs) is an object holding its contents, or nothing
 * when the file does not exist.
 */
module Cli {
  import opened Wrappers
  import opened ClientError
  import Text
  import Proto
  import BlogClient
  import HttpClient

  const SCHEME: string := "http://"
  const DEFAULT_SERVER: string := "127.0.0.1"
  const DEFAULT_PORT: string := "8081"
  const GRPC_PORT: string := "50051"
  const DEFAULT_LIST_LIMIT: int := 10
  const DEFAULT_LIST_OFFSET: int := 0

  datatype Command =
    | Register(username: string, email: string, password: string)
    | Login(username: string, password: string)
    | Create(title: string, content: string)
    | Get(id: int)
    | Update(id: int, newTitle: Option<string>, newContent: Option<string>)
    | Delete(id: int)
    | List(limit: int, offset: int)

  /** The parsed command line: `--grpc`, `--server`, `--port` and the subcommand. */
  datatype Args = Args(grpc: bool, server: string, port: string, command: Command)

  /** `--server` and `--port` default to 127.0.0.1 and 8081 when not given. */
  function ArgsOf(grpc: bool, server: Option<string>, port: Option<string>, command: Command): (a: Args)
    ensures a.grpc == grpc && a.command == command
    ensures a.server == (if server.Some? then server.value else DEFAULT_SERVER)
    ensures a.port == (if port.Some? then port.value else DEFAULT_PORT)
  {
    Args(grpc, server.GetOr(DEFAULT_SERVER), port.GetOr(DEFAULT_PORT), command)
  }

  /** `list` takes `--limit` 10 and `--offset` 0 when not given. */
  function ListOf(limit: Option<int>, offset: Option<int>): (c: Command)
    ensures c.List?
    ensures c.limit == (if limit.Some? then limit.value else DEFAULT_LIST_LIMIT)
    ensures c.offset == (if offset.Some? then offset.value else DEFAULT_LIST_OFFSET)
  {
    List(limit.GetOr(DEFAULT_LIST_LIMIT), offset.GetOr(DEFAULT_LIST_OFFSET))
  }

  /** The server address with "http://" in front, added only when it is not already there. */
  function Normalized(server: string): (s: string)
    ensures Text.StartsWith(s, SCHEME)
    ensures Text.StartsWith(server, SCHEME) ==> s == server
  {
    if Text.StartsWith(server, SCHEME) then server
    else
      Text.StripPrefixOfConcat(SCHEME, server);
      SCHEME + server
  }

  /** Normalising twice is normalising once. */
  lemma NormalizedIdempotent(server: string)
    ensures Normalized(Normalized(server)) == Normalized(server)
  {
  }

  /** Normalising only ever adds the scheme: what follows it is the address given, or the address given without its own scheme. */
  lemma NormalizedKeepsAddress(server: string)
    ensures Text.StartsWith(server, SCHEME) ==> Normalized(server) == server
    ensures !Text.StartsWith(server, SCHEME) ==> Text.StripPrefix(Normalized(server), SCHEME) == Some(server)
  {
    if !Text.StartsWith(server, SCHEME) {
      Text.StripPrefixOfConcat(SCHEME, server);
    }
  }

  /** The port the client connects to: with `--grpc` the default 8081 becomes 50051, any other port is kept. */
  function PortFor(grpc: bool, port: string): (p: string)
    ensures !grpc ==> p == port
    ensures grpc && port == DEFAULT_PORT ==> p == GRPC_PORT
    ensures grpc && port != DEFAULT_PORT ==> p == port
  {
    if grpc && port == DEFAULT_PORT then GRPC_PORT else port
  }

  /** The transport a command line asks for. */
  function TransportFor(a: Args): (t: BlogClient.Transport)
    ensures t.Grpc? <==> a.grpc
    ensures t.url == Normalized(a.server) + ":" + PortFor(a.grpc, a.port)
  {
    var url := Normalized(a.server) + ":" + PortFor(a.grpc, a.port);
    if a.grpc then BlogClient.Grpc(url) else BlogClient.Http(url)
  }

  /** Every transport's url carries the scheme, and only a gRPC one can differ from `server:port`. */
  lemma TransportUrl(a: Args)
    ensures Text.StartsWith(TransportFor(a).url, SCHEME)
    ensures TransportFor(a).Http? ==> TransportFor(a).url == Normalized(a.server) + ":" + a.port
    ensures a.grpc && a.port == DEFAULT_PORT ==> TransportFor(a).url == Normalized(a.server) + ":" + GRPC_PORT
  {
    var url := TransportFor(a).url;
    var n := Normalized(a.server);
    assert url[..|SCHEME|] == n[..|SCHEME|];
  }

  /** Lines 10-21 of `main`: the server, then the address, then the transport, each reassigned in turn. */
  method ChooseTransport(a: Args) returns (t: BlogClient.Transport)
    ensures t == TransportFor(a)
  {
    var server := a.server;
    if !Text.StartsWith(server, SCHEME) {
      server := SCHEME + server;
    }
    var serv := server + ":" + a.port;
    t := BlogClient.Http(serv);
    if a.grpc {
      if a.port == DEFAULT_PORT {
        serv := server + ":" + GRPC_PORT;
      }
      t := BlogClient.Grpc(serv);
    }
  }

  /** The token file: its contents, or None when it does not exist. */
  class TokenFile {
    var contents: Option<string>

    constructor (contents: Option<string>)
      ensures this.contents == contents
    {
      this.contents := contents;
    }

    /** `has_token` */
    predicate HasToken()
      reads this
    {
      contents.Some?
    }

    /** `save_token`: the file is created or overwritten with the token. */
    method Save(token: string)
      modifies this
      ensures contents == Some(token)
    {
      contents := Some(token);
    }
  }

  /** The reply a command printed from. */
  datatype Reply =
    | AuthReply(auth: Proto.AuthResponse)
    | PostReply(post: Proto.PostResponse)
    | DeleteReply(deleted: Proto.DeletePostResponse)
    | ListReply(list: Proto.ListPostsResponse)

  function AsAuthReply(x: Result<Proto.AuthResponse, AppError>): Result<Reply, AppError> {
    if x.Success? then Success(AuthReply(x.value)) else Failure(x.error)
  }

  function AsPostReply(x: Result<Proto.PostResponse, AppError>): Result<Reply, AppError> {
    if x.Success? then Success(PostReply(x.value)) else Failure(x.error)
  }

  function AsDeleteReply(x: Result<Proto.DeletePostResponse, AppError>): Result<Reply, AppError> {
    if x.Success? then Success(DeleteReply(x.value)) else Failure(x.error)
  }

  function AsListReply(x: Result<Proto.ListPostsResponse, AppError>): Result<Reply, AppError> {
    if x.Success? then Success(ListReply(x.value)) else Failure(x.error)
  }

  /**
   * What a command answers on a client wired to `t` and holding `token`:
   * the backend call of that transport, and Unauthorized for a write
   * without a token, asked of no backend.
   */
  function Outcome(t: BlogClient.Transport, token: Option<string>, c: Command, net: BlogClient.Network)
    : Result<Reply, AppError>
  {
    var url := t.url;
    match c
    case Register(username, email, password) =>
      AsAuthReply(if t.Http? then HttpClient.Register(url, username, email, password, net.exchange)
                  else net.grpc.register(url, Proto.RegisterRequest(username, email, password)))
    case Login(username, password) =>
      AsAuthReply(if t.Http? then HttpClient.Login(url, username, password, net.exchange)
                  else net.grpc.login(url, Proto.LoginRequest(username, password)))
    case Create(title, content) =>
      if token.None? then Failure(Unauthorized)
      else AsPostReply(if t.Http? then HttpClient.CreatePost(url, token.value, title, content, net.exchange)
                       else net.grpc.createPost(url, token.value, Proto.CreatePostRequest(title, content)))
    case Get(id) =>
      AsPostReply(if t.Http? then HttpClient.GetPost(url, id, net.exchange)
                  else net.grpc.getPost(url, Proto.GetPostRequest(id)))
    case Update(id, newTitle, newContent) =>
      if token.None? then Failure(Unauthorized)
      else AsPostReply(if t.Http? then HttpClient.UpdatePost(url, token.value, id, newTitle, newContent, net.exchange)
                       else net.grpc.updatePost(url, token.value, Proto.UpdatePostRequest(id, newTitle, newContent)))
    case Delete(id) =>
      if token.None? then Failure(Unauthorized)
      else AsDeleteReply(if t.Http? then HttpClient.DeletePost(url, token.value, id, net.exchange)
                         else net.grpc.deletePost(url, token.value, Proto.DeletePostRequest(id)))
    case List(limit, offset) =>
      AsListReply(if t.Http? then HttpClient.ListPosts(url, limit, offset, net.exchange)
                  else net.grpc.listPosts(url, Proto.ListPostsRequest(offset, limit)))
  }

  /**
   * Only the writes look at the token: a read or a sign-in answers the same
   * with any token, and a write without one is refused.
   */
  lemma OutcomeToken(t: BlogClient.Transport, token: Option<string>, other: Option<string>, c: Command,
                     net: BlogClient.Network)
    ensures !Writes(c) ==> Outcome(t, token, c, net) == Outcome(t, other, c, net)
    ensures Writes(c) && token.None? ==> Outcome(t, token, c, net) == Failure(Unauthorized)
    ensures Outcome(t, token, c, net).Success? ==> (Outcome(t, token, c, net).value.AuthReply? <==> SignsIn(c))
  {
  }

  predicate Writes(c: Command) {
    c.Create? || c.Update? || c.Delete?
  }

  predicate SignsIn(c: Command) {
    c.Register? || c.Login?
  }

  /**
   * The `match` of `main` (lines 28-87): the command's call on the client,
   * its reply kept for printing. A sign-in's reply carries the token to save.
   */
  method Dispatch(blog: BlogClient.BlogClient, c: Command, net: BlogClient.Network) returns (r: Result<Reply, AppError>)
    requires blog.Wired()
    ensures r == Outcome(blog.transport, blog.token, c, net)
  {
    match c {
      case Register(username, email, password) =>
        var response := blog.Register(username, email, password, net);
        r := AsAuthReply(response);
      case Login(username, password) =>
        var response := blog.Login(username, password, net);
        r := AsAuthReply(response);
      case Create(title, content) =>
        var response := blog.CreatePost(title, content, net);
        r := AsPostReply(response);
      case Get(id) =>
        var response := blog.GetPost(id, net);
        r := AsPostReply(response);
      case Update(id, newTitle, newContent) =>
        var response := blog.UpdatePost(id, newTitle, newContent, net);
        r := AsPostReply(response);
      case Delete(id) =>
        var response := blog.DeletePost(id, net);
        r := AsDeleteReply(response);
      case List(limit, offset) =>
        var response := blog.ListPosts(limit, offset, net);
        r := AsListReply(response);
    }
  }

  /**
   * `main`, from the parsed arguments on. `connect` is the outcome of
   * connecting a gRPC client; `client` is the client the run used, None
   * when it could not be built. Only a registration or login that succeeds
   * writes the token file, and it writes the token it received; every other
   * run leaves the file as it was. The client starts with the saved token
   * exactly when the file exists, so without one a write is refused
   * locally.
   */
  method Run(a: Args, file: TokenFile, net: BlogClient.Network, connect: Result<(), string>)
    returns (r: Result<Reply, AppError>, client: Option<BlogClient.BlogClient>)
    modifies file
    ensures client.None? <==> a.grpc && connect.Failure?
    ensures client.None? ==> r == Failure(GrpcError(connect.error)) && file.contents == old(file.contents)
    ensures client.Some? ==>
      && fresh(client.value)
      && client.value.transport == TransportFor(a)
      && client.value.Wired()
      && client.value.token == old(file.contents)
    ensures r.Success? ==> (r.value.AuthReply? <==> SignsIn(a.command))
    ensures r.Success? && SignsIn(a.command) ==> file.contents == Some(r.value.auth.token)
    ensures !(r.Success? && SignsIn(a.command)) ==> file.contents == old(file.contents)
    ensures client.Some? && old(file.contents).None? && Writes(a.command) ==> r == Failure(Unauthorized)
    ensures client.Some? ==> r == Outcome(TransportFor(a), old(file.contents), a.command, net)
  {
    var transport := ChooseTransport(a);
    var made := BlogClient.BlogClient.New(transport, connect);
    if made.Failure? {
      return Failure(made.error), None;
    }
    var blog := made.value;
    client := Some(blog);
    if file.HasToken() {
      blog.SetToken(file.contents.value);
    }

    r := Dispatch(blog, a.command, net);
    OutcomeToken(transport, blog.token, blog.token, a.command, net);
    if r.Success? && r.value.AuthReply? {
      file.Save(r.value.auth.token);
    }
  }
}
