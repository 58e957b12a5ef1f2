/**
 * The client's comment cache (frontend/src/store/commentsSlice.ts): the
 * comments of the open design, a loading flag and the last fetch error.
 * Each reducer is a method that mutates the store in place.
 */
module CommentsSlice {
  import opened Wrappers
  import opened KeyedLists

  class CommentsStore {
    var items: seq<Record>
    var loading: bool
    var error: Option<string>

    constructor ()
      ensures items == [] && !loading && error == None
    {
      items := [];
      loading := false;
      error := None;
    }

    /** `addCommentRealtime`: append unless a comment with the same id is already there. */
    method AddCommentRealtime(comment: Record)
      modifies this
      ensures items == AppendIfAbsent(old(items), comment)
      ensures loading == old(loading) && error == old(error)
    {
      var exists_ := IndexOfId(items, comment.id) != -1;
      if !exists_ {
        items := items + [comment];
      }
    }

    /** `updateCommentRealtime`: replace the comment with the same id where it stands; nothing if absent. */
    method UpdateCommentRealtime(comment: Record)
      modifies this
      ensures items == ReplaceById(old(items), comment)
      ensures loading == old(loading) && error == old(error)
    {
      var index := IndexOfId(items, comment.id);
      if index != -1 {
        items := items[index := comment];
      }
    }

    /** `resetComments`: empty the list and clear the error; `loading` is left as it is. */
    method ResetComments()
      modifies this
      ensures items == [] && error == None && loading == old(loading)
    {
      items := [];
      error := None;
    }

    method FetchPending()
      modifies this
      ensures loading && error == None && items == old(items)
    {
      loading := true;
      error := None;
    }

    /** `fetchComments.fulfilled`: the fetched list replaces the cache wholesale. */
    method FetchFulfilled(fetched: seq<Record>)
      modifies this
      ensures !loading && items == fetched && error == old(error)
    {
      loading := false;
      items := fetched;
    }

    /** `fetchComments.rejected`: record the error's message, which may be undefined. */
    method FetchRejected(message: Option<string>)
      modifies this
      ensures !loading && error == message && items == old(items)
    {
      loading := false;
      error := message;
    }

    /** `postComment.fulfilled`: the same append-if-absent as the realtime path. */
    method PostFulfilled(comment: Record)
      modifies this
      ensures items == AppendIfAbsent(old(items), comment)
      ensures loading == old(loading) && error == old(error)
    {
      AddCommentRealtime(comment);
    }

    /** `updateComment.fulfilled`: the same replace-in-place as the realtime path. */
    method UpdateFulfilled(comment: Record)
      modifies this
      ensures items == ReplaceById(old(items), comment)
      ensures loading == old(loading) && error == old(error)
    {
      UpdateCommentRealtime(comment);
    }
  }

  /** If ids are unique beforehand, the add, post and update reducers keep them unique. */
  lemma ReducersKeepUniqueIds(items: seq<Record>, comment: Record)
    requires UniqueIds(items)
    ensures UniqueIds(AppendIfAbsent(items, comment))
    ensures UniqueIds(ReplaceById(items, comment))
  {
    AppendIfAbsentKeepsUnique(items, comment);
    ReplaceByIdKeepsUnique(items, comment);
  }

  /** Adding a comment twice leaves one entry, and an update then replaces it in place. */
  lemma AddTwiceThenUpdate(comment: Record, updated: Record)
    requires updated.id == comment.id
    ensures var once := AppendIfAbsent([], comment);
            AppendIfAbsent(once, comment) == [comment]
            && ReplaceById(AppendIfAbsent(once, comment), updated) == [updated]
  {
    var once := AppendIfAbsent([], comment);
    assert once == [comment];
    assert Ids(once) == {comment.id};
  }
}
