/**
  Records of the blog backend: the rows storage keeps (categories, comments,
  users, posts), the request bodies the services receive, the public
  projections they answer with, and the `{status, message, data}` envelope
  every answer is wrapped in.
*/
module Domain {
  import opened Wrappers

  /** The response envelope. */
  datatype ApiResponse<T> = ApiResponse(status: string, message: string, data: T)

  /** Every successful service answer carries the status "success". */
  function Success<T>(message: string, data: T): ApiResponse<T>
  {
    ApiResponse("success", message, data)
  }

  // Categories

  datatype Category = Category(id: int, name: string)

  datatype CategoryResponse = CategoryResponse(id: int, name: string)

  function FromCategory(c: Category): CategoryResponse
  {
    CategoryResponse(c.id, c.name)
  }

  datatype CreateCategoryRequest = CreateCategoryRequest(name: string)

  /** A partial update: an absent name leaves the stored one as it is. */
  datatype UpdateCategoryRequest = UpdateCategoryRequest(id: int, name: Option<string>)

  // Comments

  datatype Comment = Comment(id: int, postId: int, userName: string, text: string)

  datatype CommentResponse = CommentResponse(id: int, postId: int, userName: string, text: string)

  function FromComment(c: Comment): CommentResponse
  {
    CommentResponse(c.id, c.postId, c.userName, c.text)
  }

  datatype CreateCommentRequest = CreateCommentRequest(postId: int, userName: string, text: string)

  datatype UpdateCommentRequest = UpdateCommentRequest(idPostComment: int, userName: string, text: string)

  // Users

  /**
    A stored user. `password` holds whatever the creating call passed:
    registration passes the hash, while the user service's create passes the
    caller's password through unhashed.
  */
  datatype User = User(id: int, firstname: string, lastname: string, email: string, password: string)

  /** The public projection of a user: it has no password field at all. */
  datatype UserResponse = UserResponse(id: int, firstname: string, lastname: string, email: string)

  function FromUser(u: User): UserResponse
  {
    UserResponse(u.id, u.firstname, u.lastname, u.email)
  }

  datatype CreateUserRequest = CreateUserRequest(firstname: string, lastname: string, email: string, password: string)

  datatype UpdateUserRequest = UpdateUserRequest(id: int, firstname: Option<string>, lastname: Option<string>, email: Option<string>)

  datatype RegisterRequest = RegisterRequest(firstname: string, lastname: string, email: string, password: string)

  datatype LoginRequest = LoginRequest(email: string, password: string)

  // Posts

  datatype Post = Post(id: int, title: string, body: string, img: string, categoryId: int, userId: int, userName: string)

  datatype CreatePostRequest = CreatePostRequest(title: string, body: string, img: string, categoryId: int, userId: int, userName: string)

  datatype UpdatePostRequest = UpdatePostRequest(postId: int, title: string, body: string, img: string, categoryId: int, userId: int, userName: string)

  /** One row of the post/comment relation: the post and one of its comments. */
  datatype PostRelation = PostRelation(post: Post, comment: Comment)
}
