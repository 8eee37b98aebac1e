/**
  The comment service: the same translation as the category service, one
  repository call per operation, applied to comments.
*/
module CommentService {
  import opened Wrappers
  import opened Errors
  import opened Domain
  import opened Format
  import Envelope

  datatype CommentRepository = CommentRepository(
    findAll: () -> Result<seq<Comment>, DbErr>,
    findById: int -> Result<Option<Comment>, DbErr>,
    create: CreateCommentRequest -> Result<Comment, DbErr>,
    update: UpdateCommentRequest -> Result<Comment, DbErr>,
    delete: int -> Result<(), DbErr>)

  function MissingMessage(id: int): string {
    "Comment with id " + IntToString(id) + " not found"
  }

  /** One "success" envelope per stored comment, in the repository's order. */
  function GetComments(repo: CommentRepository): (r: Result<seq<ApiResponse<CommentResponse>>, AppError>)
    ensures r.Ok? <==> repo.findAll().Ok?
    ensures repo.findAll().Err? ==> r == Err(DbError(repo.findAll().error))
    ensures repo.findAll().Ok? ==>
      var rows := repo.findAll().value;
      |r.value| == |rows| &&
      forall i | 0 <= i < |rows| ::
        r.value[i].status == "success" &&
        r.value[i].message == "Comments retrieved successfully" &&
        r.value[i].data == FromComment(rows[i])
  {
    Envelope.ListAll(repo.findAll(), FromComment, "Comments retrieved successfully")
  }

  /** A present comment is wrapped; an absent one is `NotFound` naming the id; never `Ok(None)`. */
  function GetComment(repo: CommentRepository, id: int): (r: Result<Option<ApiResponse<CommentResponse>>, AppError>)
    ensures r != Ok(None)
    ensures r.Ok? <==> repo.findById(id).Ok? && repo.findById(id).value.Some?
    ensures repo.findById(id).Err? ==> r == Err(DbError(repo.findById(id).error))
    ensures repo.findById(id) == Ok(None) ==> r == Err(NotFound("Comment with id " + IntToString(id) + " not found"))
    ensures r.Ok? ==>
      r.value.value.status == "success" &&
      r.value.value.message == "Comment retrieved successfully" &&
      r.value.value.data == FromComment(repo.findById(id).value.value)
  {
    Envelope.ReadOne(repo.findById(id), FromComment, "Comment retrieved successfully", MissingMessage(id))
  }

  function CreateComment(repo: CommentRepository, input: CreateCommentRequest): (r: Result<ApiResponse<CommentResponse>, AppError>)
    ensures r.Ok? <==> repo.create(input).Ok?
    ensures repo.create(input).Err? ==> r == Err(DbError(repo.create(input).error))
    ensures r.Ok? ==>
      r.value.status == "success" &&
      r.value.message == "Comment created successfully" &&
      r.value.data == FromComment(repo.create(input).value)
  {
    Envelope.Written(repo.create(input), FromComment, "Comment created successfully")
  }

  /** On repository success the answer is always `Ok(Some(..))`. */
  function UpdateComment(repo: CommentRepository, input: UpdateCommentRequest): (r: Result<Option<ApiResponse<CommentResponse>>, AppError>)
    ensures r.Ok? <==> repo.update(input).Ok?
    ensures r != Ok(None)
    ensures repo.update(input).Err? ==> r == Err(DbError(repo.update(input).error))
    ensures r.Ok? ==>
      r.value.value.status == "success" &&
      r.value.value.message == "Comment updated successfully" &&
      r.value.value.data == FromComment(repo.update(input).value)
  {
    Envelope.Updated(repo.update(input), FromComment, "Comment updated successfully")
  }

  function DeleteComment(repo: CommentRepository, id: int): (r: Result<ApiResponse<()>, AppError>)
    ensures r.Ok? <==> repo.delete(id).Ok?
    ensures repo.delete(id).Err? ==> r == Err(DbError(repo.delete(id).error))
    ensures r.Ok? ==> r.value.status == "success" && r.value.message == "Comment deleted successfully"
  {
    Envelope.Deleted(repo.delete(id), "Comment deleted successfully")
  }

  /** Two absent comments are reported with different messages: the message names the id. */
  lemma MissingCommentsAreDistinguished(repo: CommentRepository, a: int, b: int)
    requires repo.findById(a) == Ok(None) && repo.findById(b) == Ok(None)
    ensures GetComment(repo, a) == GetComment(repo, b) <==> a == b
  {
    FramedInjective("Comment with id ", IntToString(a), IntToString(b), " not found");
    IntToStringInjective(a, b);
  }
}
