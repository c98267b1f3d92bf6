/**
 * The client library's front (blog_client/src/lib.rs): a `BlogClient`
 * fixed to one transport at construction, holding the backend for that
 * transport and an optional token, and dispatching the seven commands to
 * the backend. The HTTP backend is `HttpClient` over a reply exchange; the
 * gRPC backend (a tonic client) is a record of the seven remote calls, each
 * given the channel's url and, for the writes, the token.
 */
module BlogClient {
  import opened Wrappers
  import opened ClientError
  import Proto
  import HttpClient

  datatype Transport = Http(url: string) | Grpc(url: string)

  /** `HttpClient::new(addr)`: the base address the requests are built on. */
  datatype HttpConn = HttpConn(addr: string)

  /** A connected `GrpcClient`'s channel. */
  datatype GrpcConn = GrpcConn(url: string)

  /** The remote calls of the gRPC backend. */
  datatype GrpcBackend = GrpcBackend(
    register: (string, Proto.RegisterRequest) -> Result<Proto.AuthResponse, AppError>,
    login: (string, Proto.LoginRequest) -> Result<Proto.AuthResponse, AppError>,
    createPost: (string, string, Proto.CreatePostRequest) -> Result<Proto.PostResponse, AppError>,
    updatePost: (string, string, Proto.UpdatePostRequest) -> Result<Proto.PostResponse, AppError>,
    deletePost: (string, string, Proto.DeletePostRequest) -> Result<Proto.DeletePostResponse, AppError>,
    getPost: (string, Proto.GetPostRequest) -> Result<Proto.PostResponse, AppError>,
    listPosts: (string, Proto.ListPostsRequest) -> Result<Proto.ListPostsResponse, AppError>)

  /** What lies behind the client: the HTTP exchange and the gRPC calls. */
  datatype Network = Network(exchange: HttpClient.Exchange, grpc: GrpcBackend)

  const HTTP_NOT_SET: string := "Http client not set"
  const GRPC_NOT_SET: string := "Grpc client not set"

  class BlogClient {
    const transport: Transport
    const httpClient: Option<HttpConn>
    const grpcClient: Option<GrpcConn>
    var token: Option<string>

    /** The backend of the client's own transport is present, built on the transport's url, and the other is absent. */
    predicate Wired()
      reads this
    {
      match transport
      case Http(url) => httpClient == Some(HttpConn(url)) && grpcClient.None?
      case Grpc(url) => grpcClient == Some(GrpcConn(url)) && httpClient.None?
    }

    constructor Make(transport: Transport, httpClient: Option<HttpConn>, grpcClient: Option<GrpcConn>)
      ensures this.transport == transport && this.httpClient == httpClient && this.grpcClient == grpcClient
      ensures token.None?
    {
      this.transport := transport;
      this.httpClient := httpClient;
      this.grpcClient := grpcClient;
      token := None;
    }

    /**
     * `BlogClient::new`: an HTTP client is built without contacting the
     * server; a gRPC client connects first, and a failed connection
     * (`connect`, the transport error's text) is the result.
     */
    static method New(transport: Transport, connect: Result<(), string>) returns (r: Result<BlogClient, AppError>)
      ensures transport.Http? ==> r.Success?
      ensures transport.Grpc? ==> (r.Success? <==> connect.Success?)
      ensures transport.Grpc? && connect.Failure? ==> r == Failure(GrpcError(connect.error))
      ensures r.Success? ==> fresh(r.value) && r.value.transport == transport && r.value.Wired()
      ensures r.Success? ==> r.value.token.None?
    {
      if transport.Http? {
        var client := new BlogClient.Make(transport, Some(HttpConn(transport.url)), None);
        r := Success(client);
      } else {
        if connect.Failure? {
          return Failure(GrpcError(connect.error));
        }
        var client := new BlogClient.Make(transport, None, Some(GrpcConn(transport.url)));
        r := Success(client);
      }
    }

    /** `set_token` */
    method SetToken(t: string)
      modifies this
      ensures token == Some(t)
    {
      token := Some(t);
    }

    /** `get_token` */
    function GetToken(): Option<string>
      reads this
    {
      token
    }

    /** `register`: to the backend of the transport; the token is left as it is. */
    method Register(username: string, email: string, password: string, net: Network)
      returns (r: Result<Proto.AuthResponse, AppError>)
      ensures transport.Http? ==>
        r == (if httpClient.Some? then HttpClient.Register(httpClient.value.addr, username, email, password, net.exchange)
              else Failure(Internal(HTTP_NOT_SET)))
      ensures transport.Grpc? ==>
        r == (if grpcClient.Some? then net.grpc.register(grpcClient.value.url, Proto.RegisterRequest(username, email, password))
              else Failure(Internal(GRPC_NOT_SET)))
    {
      if transport.Http? {
        if httpClient.Some? {
          return HttpClient.Register(httpClient.value.addr, username, email, password, net.exchange);
        }
        r := Failure(Internal(HTTP_NOT_SET));
      } else {
        if grpcClient.Some? {
          return net.grpc.register(grpcClient.value.url, Proto.RegisterRequest(username, email, password));
        }
        r := Failure(Internal(GRPC_NOT_SET));
      }
    }

    /** `login`: to the backend of the transport; the token is left as it is. */
    method Login(username: string, password: string, net: Network)
      returns (r: Result<Proto.AuthResponse, AppError>)
      ensures transport.Http? ==>
        r == (if httpClient.Some? then HttpClient.Login(httpClient.value.addr, username, password, net.exchange)
              else Failure(Internal(HTTP_NOT_SET)))
      ensures transport.Grpc? ==>
        r == (if grpcClient.Some? then net.grpc.login(grpcClient.value.url, Proto.LoginRequest(username, password))
              else Failure(Internal(GRPC_NOT_SET)))
    {
      if transport.Http? {
        if httpClient.Some? {
          return HttpClient.Login(httpClient.value.addr, username, password, net.exchange);
        }
        r := Failure(Internal(HTTP_NOT_SET));
      } else {
        if grpcClient.Some? {
          return net.grpc.login(grpcClient.value.url, Proto.LoginRequest(username, password));
        }
        r := Failure(Internal(GRPC_NOT_SET));
      }
    }

    /** `create_post`: Unauthorized without a token, before any backend is asked. */
    method CreatePost(title: string, content: string, net: Network)
      returns (r: Result<Proto.PostResponse, AppError>)
      ensures token.None? ==> r == Failure(Unauthorized)
      ensures token.Some? && transport.Http? ==>
        r == (if httpClient.Some? then HttpClient.CreatePost(httpClient.value.addr, token.value, title, content, net.exchange)
              else Failure(Internal(HTTP_NOT_SET)))
      ensures token.Some? && transport.Grpc? ==>
        r == (if grpcClient.Some?
              then net.grpc.createPost(grpcClient.value.url, token.value, Proto.CreatePostRequest(title, content))
              else Failure(Internal(GRPC_NOT_SET)))
    {
      if token.None? {
        return Failure(Unauthorized);
      }
      var t := token.value;
      if transport.Http? {
        if httpClient.Some? {
          return HttpClient.CreatePost(httpClient.value.addr, t, title, content, net.exchange);
        }
        r := Failure(Internal(HTTP_NOT_SET));
      } else {
        if grpcClient.Some? {
          return net.grpc.createPost(grpcClient.value.url, t, Proto.CreatePostRequest(title, content));
        }
        r := Failure(Internal(GRPC_NOT_SET));
      }
    }

    /** `update_post`: Unauthorized without a token, before any backend is asked. */
    method UpdatePost(postId: int, title: Option<string>, content: Option<string>, net: Network)
      returns (r: Result<Proto.PostResponse, AppError>)
      ensures token.None? ==> r == Failure(Unauthorized)
      ensures token.Some? && transport.Http? ==>
        r == (if httpClient.Some?
              then HttpClient.UpdatePost(httpClient.value.addr, token.value, postId, title, content, net.exchange)
              else Failure(Internal(HTTP_NOT_SET)))
      ensures token.Some? && transport.Grpc? ==>
        r == (if grpcClient.Some?
              then net.grpc.updatePost(grpcClient.value.url, token.value, Proto.UpdatePostRequest(postId, title, content))
              else Failure(Internal(GRPC_NOT_SET)))
    {
      if token.None? {
        return Failure(Unauthorized);
      }
      var t := token.value;
      if transport.Http? {
        if httpClient.Some? {
          return HttpClient.UpdatePost(httpClient.value.addr, t, postId, title, content, net.exchange);
        }
        r := Failure(Internal(HTTP_NOT_SET));
      } else {
        if grpcClient.Some? {
          return net.grpc.updatePost(grpcClient.value.url, t, Proto.UpdatePostRequest(postId, title, content));
        }
        r := Failure(Internal(GRPC_NOT_SET));
      }
    }

    /**
     * `delete_post`: Unauthorized without a token, before any backend is
     * asked. Over HTTP this is `HttpClient.DeletePost` as written, which
     * does not read the server's acknowledgement (see `Wire.DeleteAckUnread`).
     */
    method DeletePost(postId: int, net: Network)
      returns (r: Result<Proto.DeletePostResponse, AppError>)
      ensures token.None? ==> r == Failure(Unauthorized)
      ensures token.Some? && transport.Http? ==>
        r == (if httpClient.Some?
              then HttpClient.DeletePost(httpClient.value.addr, token.value, postId, net.exchange)
              else Failure(Internal(HTTP_NOT_SET)))
      ensures token.Some? && transport.Grpc? ==>
        r == (if grpcClient.Some?
              then net.grpc.deletePost(grpcClient.value.url, token.value, Proto.DeletePostRequest(postId))
              else Failure(Internal(GRPC_NOT_SET)))
    {
      if token.None? {
        return Failure(Unauthorized);
      }
      var t := token.value;
      if transport.Http? {
        if httpClient.Some? {
          return HttpClient.DeletePost(httpClient.value.addr, t, postId, net.exchange);
        }
        r := Failure(Internal(HTTP_NOT_SET));
      } else {
        if grpcClient.Some? {
          return net.grpc.deletePost(grpcClient.value.url, t, Proto.DeletePostRequest(postId));
        }
        r := Failure(Internal(GRPC_NOT_SET));
      }
    }

    /** `get_post` */
    method GetPost(postId: int, net: Network) returns (r: Result<Proto.PostResponse, AppError>)
      ensures transport.Http? ==>
        r == (if httpClient.Some? then HttpClient.GetPost(httpClient.value.addr, postId, net.exchange)
              else Failure(Internal(HTTP_NOT_SET)))
      ensures transport.Grpc? ==>
        r == (if grpcClient.Some? then net.grpc.getPost(grpcClient.value.url, Proto.GetPostRequest(postId))
              else Failure(Internal(GRPC_NOT_SET)))
    {
      if transport.Http? {
        if httpClient.Some? {
          return HttpClient.GetPost(httpClient.value.addr, postId, net.exchange);
        }
        r := Failure(Internal(HTTP_NOT_SET));
      } else {
        if grpcClient.Some? {
          return net.grpc.getPost(grpcClient.value.url, Proto.GetPostRequest(postId));
        }
        r := Failure(Internal(GRPC_NOT_SET));
      }
    }

    /** `list_posts` */
    method ListPosts(limit: int, offset: int, net: Network) returns (r: Result<Proto.ListPostsResponse, AppError>)
      ensures transport.Http? ==>
        r == (if httpClient.Some? then HttpClient.ListPosts(httpClient.value.addr, limit, offset, net.exchange)
              else Failure(Internal(HTTP_NOT_SET)))
      ensures transport.Grpc? ==>
        r == (if grpcClient.Some? then net.grpc.listPosts(grpcClient.value.url, Proto.ListPostsRequest(offset, limit))
              else Failure(Internal(GRPC_NOT_SET)))
    {
      if transport.Http? {
        if httpClient.Some? {
          return HttpClient.ListPosts(httpClient.value.addr, limit, offset, net.exchange);
        }
        r := Failure(Internal(HTTP_NOT_SET));
      } else {
        if grpcClient.Some? {
          return net.grpc.listPosts(grpcClient.value.url, Proto.ListPostsRequest(offset, limit));
        }
        r := Failure(Internal(GRPC_NOT_SET));
      }
    }
  }
}
