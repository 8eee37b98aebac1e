/**
  The category service: each operation makes one call on the category
  repository and translates the outcome into an envelope or an `AppError`.
  The repository is a record of what each of its calls answers, so that the
  service can be stated for every possible repository behaviour.
*/
module CategoryService {
  import opened Wrappers
  import opened Errors
  import opened Domain
  import opened Format
  import Envelope

  datatype CategoryRepository = CategoryRepository(
    findAll: () -> Result<seq<Category>, DbErr>,
    findById: int -> Result<Option<Category>, DbErr>,
    create: CreateCategoryRequest -> Result<Category, DbErr>,
    update: UpdateCategoryRequest -> Result<Category, DbErr>,
    delete: int -> Result<(), DbErr>)

  function MissingMessage(id: int): string {
    "Category with id " + IntToString(id) + " not found"
  }

  /** One "success" envelope per stored category, in the repository's order. */
  function GetCategories(repo: CategoryRepository): (r: Result<seq<ApiResponse<CategoryResponse>>, AppError>)
    ensures r.Ok? <==> repo.findAll().Ok?
    ensures repo.findAll().Err? ==> r == Err(DbError(repo.findAll().error))
    ensures repo.findAll().Ok? ==>
      var rows := repo.findAll().value;
      |r.value| == |rows| &&
      forall i | 0 <= i < |rows| ::
        r.value[i].status == "success" &&
        r.value[i].message == "Categories retrieved successfully" &&
        r.value[i].data == FromCategory(rows[i])
  {
    Envelope.ListAll(repo.findAll(), FromCategory, "Categories retrieved successfully")
  }

  /** A present category is wrapped; an absent one is `NotFound` naming the id; never `Ok(None)`. */
  function GetCategory(repo: CategoryRepository, id: int): (r: Result<Option<ApiResponse<CategoryResponse>>, AppError>)
    ensures r != Ok(None)
    ensures r.Ok? <==> repo.findById(id).Ok? && repo.findById(id).value.Some?
    ensures repo.findById(id).Err? ==> r == Err(DbError(repo.findById(id).error))
    ensures repo.findById(id) == Ok(None) ==> r == Err(NotFound("Category with id " + IntToString(id) + " not found"))
    ensures r.Ok? ==>
      r.value.value.status == "success" &&
      r.value.value.message == "Category retrieved successfully" &&
      r.value.value.data == FromCategory(repo.findById(id).value.value)
  {
    Envelope.ReadOne(repo.findById(id), FromCategory, "Category retrieved successfully", MissingMessage(id))
  }

  function CreateCategory(repo: CategoryRepository, input: CreateCategoryRequest): (r: Result<ApiResponse<CategoryResponse>, AppError>)
    ensures r.Ok? <==> repo.create(input).Ok?
    ensures repo.create(input).Err? ==> r == Err(DbError(repo.create(input).error))
    ensures r.Ok? ==>
      r.value.status == "success" &&
      r.value.message == "Category created successfully" &&
      r.value.data == FromCategory(repo.create(input).value)
  {
    Envelope.Written(repo.create(input), FromCategory, "Category created successfully")
  }

  /** On repository success the answer is always `Ok(Some(..))`. */
  function UpdateCategory(repo: CategoryRepository, input: UpdateCategoryRequest): (r: Result<Option<ApiResponse<CategoryResponse>>, AppError>)
    ensures r.Ok? <==> repo.update(input).Ok?
    ensures r != Ok(None)
    ensures repo.update(input).Err? ==> r == Err(DbError(repo.update(input).error))
    ensures r.Ok? ==>
      r.value.value.status == "success" &&
      r.value.value.message == "Category updated successfully" &&
      r.value.value.data == FromCategory(repo.update(input).value)
  {
    Envelope.Updated(repo.update(input), FromCategory, "Category updated successfully")
  }

  function DeleteCategory(repo: CategoryRepository, id: int): (r: Result<ApiResponse<()>, AppError>)
    ensures r.Ok? <==> repo.delete(id).Ok?
    ensures repo.delete(id).Err? ==> r == Err(DbError(repo.delete(id).error))
    ensures r.Ok? ==> r.value.status == "success" && r.value.message == "Category deleted successfully"
  {
    Envelope.Deleted(repo.delete(id), "Category deleted successfully")
  }

  /** Two absent categories are reported with different messages: the message names the id. */
  lemma MissingCategoriesAreDistinguished(repo: CategoryRepository, a: int, b: int)
    requires repo.findById(a) == Ok(None) && repo.findById(b) == Ok(None)
    ensures GetCategory(repo, a) == GetCategory(repo, b) <==> a == b
  {
    FramedInjective("Category with id ", IntToString(a), IntToString(b), " not found");
    IntToStringInjective(a, b);
  }
}
