/**
  The post repository over an in-memory post table keyed by id. Storage
  assigns ids on insert. The post/comment relation query joins a post with
  the comments whose post id is its id and flattens the result into one row
  per (post, comment) pair.
*/
module Posts {
  import opened Wrappers
  import opened Errors
  import opened Domain

  // The relation query

  /** The rows one post contributes: one per comment, in the comments' order. */
  function Rows(post: Post, comments: seq<Comment>): (r: seq<PostRelation>)
    ensures |r| == |comments|
    ensures forall i | 0 <= i < |comments| :: r[i] == PostRelation(post, comments[i])
  {
    if comments == [] then []
    else [PostRelation(post, comments[0])] + Rows(post, comments[1..])
  }

  /** The number of comments over all pairs. */
  function CommentCount(pairs: seq<(Post, seq<Comment>)>): nat {
    if pairs == [] then 0 else |pairs[0].1| + CommentCount(pairs[1..])
  }

  /** The flat_map of the relation: each post's rows, posts in order. */
  function Flatten(pairs: seq<(Post, seq<Comment>)>): (r: seq<PostRelation>)
    ensures |r| == CommentCount(pairs)
  {
    if pairs == [] then [] else Rows(pairs[0].0, pairs[0].1) + Flatten(pairs[1..])
  }

  /** Flattening keeps the order of the pairs: it distributes over concatenation. */
  lemma {:induction false} FlattenAppend(a: seq<(Post, seq<Comment>)>, b: seq<(Post, seq<Comment>)>)
    ensures Flatten(a + b) == Flatten(a) + Flatten(b)
  {
    if a == [] {
      assert a + b == b;
    } else {
      assert (a + b)[1..] == a[1..] + b;
      FlattenAppend(a[1..], b);
    }
  }

  /** A post with no comments contributes no row, wherever it stands. */
  lemma CommentlessPostAddsNothing(a: seq<(Post, seq<Comment>)>, p: Post, b: seq<(Post, seq<Comment>)>)
    ensures Flatten(a + [(p, [])] + b) == Flatten(a + b)
  {
    FlattenAppend(a + [(p, [])], b);
    FlattenAppend(a, [(p, [])]);
    FlattenAppend(a, b);
  }

  /** A row comes out exactly when its post is paired with its comment. */
  lemma {:induction false} FlattenMembership(pairs: seq<(Post, seq<Comment>)>, row: PostRelation)
    ensures row in Flatten(pairs) <==>
      exists i | 0 <= i < |pairs| :: row.post == pairs[i].0 && row.comment in pairs[i].1
  {
    if pairs != [] {
      FlattenMembership(pairs[1..], row);
      var head := Rows(pairs[0].0, pairs[0].1);
      assert Flatten(pairs) == head + Flatten(pairs[1..]);
      if row in head {
        var j :| 0 <= j < |head| && head[j] == row;
        assert row.comment == pairs[0].1[j];
      }
      if row.post == pairs[0].0 && row.comment in pairs[0].1 {
        var j :| 0 <= j < |pairs[0].1| && pairs[0].1[j] == row.comment;
        assert head[j] == row;
      }
      if exists i | 1 <= i < |pairs| :: row.post == pairs[i].0 && row.comment in pairs[i].1 {
        var i :| 1 <= i < |pairs| && row.post == pairs[i].0 && row.comment in pairs[i].1;
        assert pairs[1..][i - 1] == pairs[i];
      }
      if exists i | 0 <= i < |pairs| - 1 :: row.post == pairs[1..][i].0 && row.comment in pairs[1..][i].1 {
        var i :| 0 <= i < |pairs| - 1 && row.post == pairs[1..][i].0 && row.comment in pairs[1..][i].1;
        assert pairs[1..][i] == pairs[i + 1];
      }
    }
  }

  /** The comments that belong to post `postId`, in the order the comment table holds them. */
  function Related(postId: int, comments: seq<Comment>): (r: seq<Comment>)
    ensures |r| <= |comments|
    ensures forall c :: c in r <==> c in comments && c.postId == postId
  {
    if comments == [] then []
    else (if comments[0].postId == postId then [comments[0]] else []) + Related(postId, comments[1..])
  }

  /** The join keeps the table order of the comments. */
  lemma {:induction false} RelatedAppend(postId: int, a: seq<Comment>, b: seq<Comment>)
    ensures Related(postId, a + b) == Related(postId, a) + Related(postId, b)
  {
    if a == [] {
      assert a + b == b;
    } else {
      assert (a + b)[1..] == a[1..] + b;
      RelatedAppend(postId, a[1..], b);
    }
  }

  /** Each post paired with its comments: the join before the flattening. */
  function WithComments(posts: seq<Post>, comments: seq<Comment>): (r: seq<(Post, seq<Comment>)>)
    ensures |r| == |posts|
    ensures forall i | 0 <= i < |posts| :: r[i] == (posts[i], Related(posts[i].id, comments))
  {
    if posts == [] then []
    else [(posts[0], Related(posts[0].id, comments))] + WithComments(posts[1..], comments)
  }

  // Ordering the table for a full scan

  lemma HasMember(ks: set<int>)
    requires ks != {}
    ensures exists x :: x in ks
  {
    if forall x :: x !in ks {
      assert false;
    }
  }

  lemma {:induction false} LeastExists(ks: set<int>)
    requires ks != {}
    ensures exists m :: m in ks && forall k | k in ks :: m <= k
    decreases |ks|
  {
    HasMember(ks);
    var x :| x in ks;
    var rest := ks - {x};
    assert |rest| == |ks| - 1;
    if rest == {} {
      assert ks == {x};
      assert x in ks && forall k | k in ks :: x <= k;
    } else {
      LeastExists(rest);
      var y :| y in rest && forall k | k in rest :: y <= k;
      var m := if x < y then x else y;
      assert forall k | k in ks :: k == x || k in rest;
      assert m in ks && forall k | k in ks :: m <= k;
    }
  }

  function Least(ks: set<int>): (m: int)
    requires ks != {}
    ensures m in ks && forall k | k in ks :: m <= k
  {
    LeastExists(ks);
    var m :| m in ks && forall k | k in ks :: m <= k; m
  }

  /** The keys in ascending order, each once. */
  function Ascending(ks: set<int>): (r: seq<int>)
    ensures |r| == |ks|
    ensures forall k :: k in r <==> k in ks
    ensures forall i, j | 0 <= i < j < |r| :: r[i] < r[j]
    decreases |ks|
  {
    if ks == {} then []
    else
      var m := Least(ks);
      [m] + Ascending(ks - {m})
  }

  function RowsAt(ids: seq<int>, table: map<int, Post>): (r: seq<Post>)
    requires forall i | 0 <= i < |ids| :: ids[i] in table
    ensures |r| == |ids|
    ensures forall i | 0 <= i < |ids| :: r[i] == table[ids[i]]
  {
    if ids == [] then [] else [table[ids[0]]] + RowsAt(ids[1..], table)
  }

  /** Every key of the table has its row among the rows read at `ids`. */
  lemma RowsAtCovers(ids: seq<int>, table: map<int, Post>)
    requires forall i | 0 <= i < |ids| :: ids[i] in table
    requires forall k :: k in ids <==> k in table
    ensures forall k | k in table :: table[k] in RowsAt(ids, table)
  {
  }

  /** Read at ascending keys, the rows of a table keyed by id come out in ascending id order. */
  lemma RowsAtAscending(ids: seq<int>, table: map<int, Post>)
    requires forall k | k in table :: table[k].id == k
    requires forall i | 0 <= i < |ids| :: ids[i] in table
    requires forall i, j | 0 <= i < j < |ids| :: ids[i] < ids[j]
    ensures forall i | 0 <= i < |ids| :: RowsAt(ids, table)[i].id == ids[i]
    ensures forall i | 0 <= i < |ids| ::
      RowsAt(ids, table)[i].id in table && table[RowsAt(ids, table)[i].id] == RowsAt(ids, table)[i]
    ensures forall i, j | 0 <= i < j < |ids| :: RowsAt(ids, table)[i].id < RowsAt(ids, table)[j].id
  {
  }

  /** Rows of a table keyed by id, read in ascending id order. */
  function ScanById(table: map<int, Post>): (r: seq<Post>)
    requires forall k | k in table :: table[k].id == k
    ensures |r| == |table|
    ensures forall i | 0 <= i < |r| :: r[i].id in table && table[r[i].id] == r[i]
    ensures forall k | k in table :: table[k] in r
    ensures forall i, j | 0 <= i < j < |r| :: r[i].id < r[j].id
  {
    var ids := Ascending(table.Keys);
    assert forall i | 0 <= i < |ids| :: ids[i] in table by {
      forall i | 0 <= i < |ids| ensures ids[i] in table {
        assert ids[i] in ids;
      }
    }
    RowsAtCovers(ids, table);
    RowsAtAscending(ids, table);
    assert |ids| == |table.Keys| == |table|;
    RowsAt(ids, table)
  }

  /** The post table. */
  class PostTable {
    var posts: map<int, Post>
    var nextId: int

    /** Every row is stored under its own id, and every id is below the next one storage hands out. */
    ghost predicate Valid()
      reads this
    {
      forall k | k in posts :: posts[k].id == k && k < nextId
    }

    constructor ()
      ensures Valid() && posts == map[] && nextId == 1
    {
      posts := map[];
      nextId := 1;
    }

    /** Every stored post once, in ascending id order. */
    function GetAllPosts(): (r: seq<Post>)
      reads this
      requires Valid()
      ensures |r| == |posts|
      ensures forall i | 0 <= i < |r| :: r[i].id in posts && posts[r[i].id] == r[i]
      ensures forall k | k in posts :: posts[k] in r
      ensures forall i, j | 0 <= i < j < |r| :: r[i].id < r[j].id
    {
      ScanById(posts)
    }

    /** The stored post with that id, or nothing. */
    function GetPost(postId: int): (r: Option<Post>)
      reads this
      requires Valid()
      ensures r.Some? <==> postId in posts
      ensures r.Some? ==> r.value == posts[postId] && r.value.id == postId
    {
      if postId in posts then Some(posts[postId]) else None
    }

    /** One row per comment of post `postId`, in comment order; none when the post is absent or has no comments. */
    function GetPostRelation(postId: int, comments: seq<Comment>): (r: seq<PostRelation>)
      reads this
      requires Valid()
      ensures postId !in posts ==> r == []
      ensures postId in posts ==>
        var mine := Related(postId, comments);
        |r| == |mine| && forall i | 0 <= i < |r| :: r[i] == PostRelation(posts[postId], mine[i])
      ensures forall i | 0 <= i < |r| :: r[i].post.id == postId && r[i].comment.postId == postId
    {
      var matching := if postId in posts then [posts[postId]] else [];
      var pairs := WithComments(matching, comments);
      assert pairs != [] ==> Flatten(pairs) == Rows(pairs[0].0, pairs[0].1) + Flatten(pairs[1..]);
      var r := Flatten(pairs);
      assert forall i | 0 <= i < |r| :: r[i].comment in Related(postId, comments) by {
        forall i | 0 <= i < |r| ensures r[i].comment in Related(postId, comments) {
          assert r[i] == PostRelation(posts[postId], Related(postId, comments)[i]);
        }
      }
      r
    }

    /** Inserts the input's six fields under an id storage chooses, one not yet in use. */
    method CreatePost(input: CreatePostRequest) returns (r: Result<Post, DbErr>)
      requires Valid()
      modifies this
      ensures Valid()
      ensures r.Ok?
      ensures r.value.id !in old(posts)
      ensures r.value.title == input.title && r.value.body == input.body && r.value.img == input.img
      ensures r.value.categoryId == input.categoryId && r.value.userId == input.userId
      ensures r.value.userName == input.userName
      ensures posts == old(posts)[r.value.id := r.value]
    {
      var post := Post(nextId, input.title, input.body, input.img, input.categoryId, input.userId, input.userName);
      posts := posts[nextId := post];
      nextId := nextId + 1;
      r := Ok(post);
    }

    /** Replaces the six fields of an existing post; a missing id is `RecordNotFound` and changes nothing. */
    method UpdatePost(input: UpdatePostRequest) returns (r: Result<Post, DbErr>)
      requires Valid()
      modifies this
      ensures Valid() && nextId == old(nextId)
      ensures input.postId !in old(posts) ==> r == Err(RecordNotFound("Post not found")) && posts == old(posts)
      ensures input.postId in old(posts) ==>
        && r.Ok?
        && r.value == Post(input.postId, input.title, input.body, input.img, input.categoryId, input.userId, input.userName)
        && posts == old(posts)[input.postId := r.value]
    {
      if input.postId !in posts {
        return Err(RecordNotFound("Post not found"));
      }
      var post := posts[input.postId];
      post := post.(title := input.title, body := input.body, img := input.img);
      post := post.(categoryId := input.categoryId, userId := input.userId, userName := input.userName);
      posts := posts[input.postId := post];
      r := Ok(post);
    }

    /** Removes exactly the post with that id; a missing id is `RecordNotFound` and changes nothing. */
    method DeletePost(postId: int) returns (r: Result<(), DbErr>)
      requires Valid()
      modifies this
      ensures Valid() && nextId == old(nextId)
      ensures postId !in old(posts) ==> r == Err(RecordNotFound("Post not found")) && posts == old(posts)
      ensures postId in old(posts) ==> r == Ok(()) && posts == old(posts) - {postId}
    {
      if postId !in posts {
        return Err(RecordNotFound("Post not found"));
      }
      posts := posts - {postId};
      r := Ok(());
    }
  }

  /** Create, read, update, delete, read again, on a fresh table. */
  method PostLifecycle(input: CreatePostRequest, title: string) returns (created: Post, fetched: Option<Post>, edited: Post, afterDelete: Option<Post>)
    ensures fetched == Some(created)
    ensures edited.id == created.id && edited.title == title
    ensures edited.body == created.body && edited.img == created.img && edited.userName == created.userName
    ensures afterDelete == None
  {
    var table := new PostTable();
    var made := table.CreatePost(input);
    created := made.value;
    fetched := table.GetPost(created.id);
    var change := UpdatePostRequest(created.id, title, created.body, created.img, created.categoryId, created.userId, created.userName);
    var changed := table.UpdatePost(change);
    edited := changed.value;
    var gone := table.DeletePost(created.id);
    afterDelete := table.GetPost(created.id);
  }

  /** A post with two comments gives exactly two rows; one with none gives no row. */
  lemma RelationRowCounts(table: PostTable, postId: int, c1: Comment, c2: Comment, other: Comment)
    requires table.Valid() && postId in table.posts
    requires c1.postId == postId && c2.postId == postId && other.postId != postId
    ensures table.GetPostRelation(postId, [c1, other, c2]) ==
      [PostRelation(table.posts[postId], c1), PostRelation(table.posts[postId], c2)]
    ensures table.GetPostRelation(postId, [other]) == []
  {
    var mine := Related(postId, [c1, other, c2]);
    assert [c1, other, c2][1..] == [other, c2];
    assert [other, c2][1..] == [c2];
    assert [c2][1..] == [];
    assert Related(postId, [c2]) == [c2];
    assert Related(postId, [other, c2]) == [c2];
    assert mine == [c1, c2];
    assert [other][1..] == [];
  }
}
