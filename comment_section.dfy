/** The optimistic comment and reply reconciler of an opportunity's
    discussion thread.

    Each list shown to the user is a confirmed part, last received from the
    server, and an optimistic part, holding entries the user has just posted.
    A post is written into the optimistic part at once; when a later fetch
    returns an entry with the same text key, the optimistic copy is dropped;
    when the post fails, the optimistic copy is removed by its id.

    The asynchronous handlers `await` in the middle, so each is modelled as
    two methods: `Begin…` runs up to the `await` and hands back a ticket
    holding what the handler's closure captured; `Finish…` runs the rest
    with the outcome of the network call. Any other event (a fetch result, a
    page change) may happen between the two. */
module CommentSection {
  import opened Wrappers
  import opened Strings
  import opened Lists

  datatype Author = Author(id: string, firstName: string, lastName: string, role: string)

  /** The signed-in user as the user query returns it; `""` stands for a
      missing field. */
  datatype User = User(id: string, firstName: string, lastName: string, role: string)

  /** A top-level comment; `replyCount` is `_count.replies`, absent when the
      server sent no `_count`. */
  datatype Comment = Comment(
    id: string, content: string, author: Author, replyCount: Option<int>, isOptimistic: bool)

  datatype Reply = Reply(
    id: string, content: string, parentId: string, author: Author, isOptimistic: bool)

  /** The pagination block of a comments page. */
  datatype Metadata = Metadata(total: int, lastPage: int, currentPage: int, perPage: int)

  /** A comments query result: `data` is `None` when it is not an array. */
  datatype CommentsResponse = CommentsResponse(data: Option<seq<Comment>>, metadata: Option<Metadata>)

  /** The author written on an optimistic entry: each missing field of the
      user falls back with `||` (the first name to `"You"`). */
  function OptimisticAuthor(u: User): (a: Author)
    ensures a.firstName != ""
    ensures u.firstName != "" ==> a.firstName == u.firstName
    ensures a.id == u.id && a.lastName == u.lastName && a.role == u.role
  {
    Author(u.id, if u.firstName == "" then "You" else u.firstName, u.lastName, u.role)
  }

  /** The number of replies a comment advertises, `_count?.replies || 0`. */
  function AdvertisedReplies(c: Comment): (n: int)
    ensures c.replyCount.None? ==> n == 0
    ensures c.replyCount.Some? ==> n == c.replyCount.value
  {
    match c.replyCount
    case Some(k) => if k != 0 then k else 0
    case None => 0
  }

  /** The text key matching an optimistic comment to a confirmed one. */
  function CommentKey(c: Comment): string {
    c.content + "-" + c.author.id
  }

  /** The text key matching an optimistic reply to a confirmed one; the
      author is not part of it. */
  function ReplyKey(r: Reply): string {
    r.content + "-" + r.parentId
  }

  function CommentKeys(cs: seq<Comment>): set<string> {
    set c | c in cs :: CommentKey(c)
  }

  function ReplyKeys(rs: seq<Reply>): set<string> {
    set r | r in rs :: ReplyKey(r)
  }

  /** The optimistic comments that survive a fetch of `confirmed`: exactly
      those whose key no confirmed comment has. */
  function PruneComments(pending: seq<Comment>, confirmed: seq<Comment>): (r: seq<Comment>)
    ensures forall i :: 0 <= i < |r| ==> r[i] in pending && CommentKey(r[i]) !in CommentKeys(confirmed)
    ensures forall i :: 0 <= i < |pending| && CommentKey(pending[i]) !in CommentKeys(confirmed) ==> pending[i] in r
  {
    var keys := CommentKeys(confirmed);
    var p := (c: Comment) => CommentKey(c) !in keys;
    FilterFacts(pending, p);
    Filter(pending, p)
  }

  /** The optimistic replies that survive a load of `confirmed`. */
  function PruneReplies(pending: seq<Reply>, confirmed: seq<Reply>): (r: seq<Reply>)
    ensures forall i :: 0 <= i < |r| ==> r[i] in pending && ReplyKey(r[i]) !in ReplyKeys(confirmed)
    ensures forall i :: 0 <= i < |pending| && ReplyKey(pending[i]) !in ReplyKeys(confirmed) ==> pending[i] in r
  {
    var keys := ReplyKeys(confirmed);
    var p := (r: Reply) => ReplyKey(r) !in keys;
    FilterFacts(pending, p);
    Filter(pending, p)
  }

  /** The fetched replies that belong to comment `commentId`. */
  function RepliesOf(fetched: seq<Reply>, commentId: string): (r: seq<Reply>)
    ensures forall i :: 0 <= i < |r| ==> r[i] in fetched && r[i].parentId == commentId
    ensures forall i :: 0 <= i < |fetched| && fetched[i].parentId == commentId ==> fetched[i] in r
  {
    var p := (x: Reply) => x.parentId == commentId;
    FilterFacts(fetched, p);
    Filter(fetched, p)
  }

  /** The rollback of a failed comment post. */
  function RemoveComment(s: seq<Comment>, id: string): (r: seq<Comment>)
    ensures forall i :: 0 <= i < |r| ==> r[i] in s && r[i].id != id
    ensures forall i :: 0 <= i < |s| && s[i].id != id ==> s[i] in r
  {
    var p := (c: Comment) => c.id != id;
    FilterFacts(s, p);
    Filter(s, p)
  }

  /** The rollback of a failed reply post. */
  function RemoveReply(s: seq<Reply>, id: string): (r: seq<Reply>)
    ensures forall i :: 0 <= i < |r| ==> r[i] in s && r[i].id != id
    ensures forall i :: 0 <= i < |s| && s[i].id != id ==> s[i] in r
  {
    var p := (x: Reply) => x.id != id;
    FilterFacts(s, p);
    Filter(s, p)
  }

  /** Pruning works entry by entry, so surviving optimistic comments keep
      their relative order. */
  lemma PruneCommentsKeepsOrder(a: seq<Comment>, b: seq<Comment>, confirmed: seq<Comment>)
    ensures PruneComments(a + b, confirmed) == PruneComments(a, confirmed) + PruneComments(b, confirmed)
  {
    var keys := CommentKeys(confirmed);
    FilterAppend(a, b, (c: Comment) => CommentKey(c) !in keys);
  }

  lemma PruneRepliesKeepsOrder(a: seq<Reply>, b: seq<Reply>, confirmed: seq<Reply>)
    ensures PruneReplies(a + b, confirmed) == PruneReplies(a, confirmed) + PruneReplies(b, confirmed)
  {
    var keys := ReplyKeys(confirmed);
    FilterAppend(a, b, (r: Reply) => ReplyKey(r) !in keys);
  }

  /** Receiving the same comments page twice prunes nothing the second time. */
  lemma PruneCommentsIdempotent(pending: seq<Comment>, confirmed: seq<Comment>)
    ensures PruneComments(PruneComments(pending, confirmed), confirmed) == PruneComments(pending, confirmed)
  {
    var keys := CommentKeys(confirmed);
    FilterIdempotent(pending, (c: Comment) => CommentKey(c) !in keys);
  }

  /** A fetch that carries none of the pending keys leaves the optimistic
      list as it was. */
  lemma PruneCommentsNoMatch(pending: seq<Comment>, confirmed: seq<Comment>)
    requires forall i :: 0 <= i < |pending| ==> CommentKey(pending[i]) !in CommentKeys(confirmed)
    ensures PruneComments(pending, confirmed) == pending
  {
    var keys := CommentKeys(confirmed);
    FilterKeepsAll(pending, (c: Comment) => CommentKey(c) !in keys);
  }

  /** With distinct ids, a comment rollback deletes exactly the one entry
      carrying the failed post's id, at its position. */
  lemma RemoveCommentExactlyOne(s: seq<Comment>, k: nat)
    requires k < |s|
    requires DistinctBy(s, (c: Comment) => c.id)
    ensures RemoveComment(s, s[k].id) == s[..k] + s[k + 1..]
  {
    var id := s[k].id;
    FilterRemovesOne(s, k, (c: Comment) => c.id != id);
  }

  lemma RemoveReplyExactlyOne(s: seq<Reply>, k: nat)
    requires k < |s|
    requires DistinctBy(s, (r: Reply) => r.id)
    ensures RemoveReply(s, s[k].id) == s[..k] + s[k + 1..]
  {
    var id := s[k].id;
    FilterRemovesOne(s, k, (r: Reply) => r.id != id);
  }

  /** A rollback for an id no entry carries changes nothing. */
  lemma RemoveCommentAbsent(s: seq<Comment>, id: string)
    requires forall i :: 0 <= i < |s| ==> s[i].id != id
    ensures RemoveComment(s, id) == s
  {
    FilterKeepsAll(s, (c: Comment) => c.id != id);
  }

  /** What `handleSubmitComment` captured before its `await`. */
  datatype SubmitTicket = SubmitTicket(optimisticId: string, content: string, pageAtSubmit: int)

  /** `CommentsSection`: the thread of one opportunity. */
  class CommentsSection {
    var newComment: string
    var isFocused: bool
    var optimisticComments: seq<Comment>
    var currentPage: int
    var comments: seq<Comment>
    var metadata: Metadata
    var authModalOpen: bool
    /** How many times `refetch()` of the comments query was called. */
    var refetches: nat

    constructor ()
      ensures newComment == "" && !isFocused && !authModalOpen
      ensures optimisticComments == [] && comments == [] && currentPage == 1
      ensures metadata == Metadata(0, 1, 1, 10) && refetches == 0
    {
      newComment := "";
      isFocused := false;
      optimisticComments := [];
      currentPage := 1;
      comments := [];
      metadata := Metadata(0, 1, 1, 10);
      authModalOpen := false;
      refetches := 0;
    }

    /** `displayComments`. */
    function DisplayComments(): seq<Comment>
      reads this
    {
      if currentPage == 1 then optimisticComments + comments else comments
    }

    /** The number in the thread header, `(metadata.total || 0) + optimisticComments.length`. */
    function HeaderCount(): int
      reads this
    {
      metadata.total + |optimisticComments|
    }

    /** Typing into the comment box, and focusing it. */
    method Type(text: string)
      modifies this
      ensures newComment == text
      ensures isFocused == old(isFocused) && authModalOpen == old(authModalOpen)
      ensures optimisticComments == old(optimisticComments) && comments == old(comments)
      ensures currentPage == old(currentPage) && metadata == old(metadata) && refetches == old(refetches)
    {
      newComment := text;
    }

    method Focus()
      modifies this
      ensures isFocused && newComment == old(newComment) && authModalOpen == old(authModalOpen)
      ensures optimisticComments == old(optimisticComments) && comments == old(comments)
      ensures currentPage == old(currentPage) && metadata == old(metadata) && refetches == old(refetches)
    {
      isFocused := true;
    }

    /** `handleCancelComment`. */
    method CancelComment()
      modifies this
      ensures newComment == "" && !isFocused && authModalOpen == old(authModalOpen)
      ensures optimisticComments == old(optimisticComments) && comments == old(comments)
      ensures currentPage == old(currentPage) && metadata == old(metadata) && refetches == old(refetches)
    {
      newComment := "";
      isFocused := false;
    }

    /** The effect that runs when the comments query delivers `response`:
        an array replaces `comments` wholesale and prunes the optimistic
        comments it confirms; a metadata block replaces `metadata`. */
    method ApplyFetched(response: Option<CommentsResponse>)
      modifies this
      ensures response.Some? && response.value.data.Some? ==>
        comments == response.value.data.value &&
        optimisticComments == PruneComments(old(optimisticComments), comments)
      ensures !(response.Some? && response.value.data.Some?) ==>
        comments == old(comments) && optimisticComments == old(optimisticComments)
      ensures metadata == (if response.Some? && response.value.metadata.Some?
                           then response.value.metadata.value else old(metadata))
      ensures forall i :: 0 <= i < |optimisticComments| ==> optimisticComments[i] in old(optimisticComments)
      ensures response.Some? && response.value.data.Some? ==>
        forall i :: 0 <= i < |optimisticComments| ==> CommentKey(optimisticComments[i]) !in CommentKeys(comments)
      ensures newComment == old(newComment) && isFocused == old(isFocused) && authModalOpen == old(authModalOpen)
      ensures currentPage == old(currentPage) && refetches == old(refetches)
    {
      if response.Some? {
        var r := response.value;
        if r.data.Some? {
          comments := r.data.value;
          optimisticComments := PruneComments(optimisticComments, comments);
        }
        if r.metadata.Some? {
          metadata := r.metadata.value;
        }
      }
    }

    /** `handlePageChange`: leaving page 1 discards the optimistic comments. */
    method HandlePageChange(page: int)
      modifies this
      ensures currentPage == page
      ensures optimisticComments == (if page != 1 then [] else old(optimisticComments))
      ensures DisplayComments() == (if page == 1 then old(optimisticComments) + old(comments) else old(comments))
      ensures comments == old(comments) && metadata == old(metadata) && refetches == old(refetches)
      ensures newComment == old(newComment) && isFocused == old(isFocused) && authModalOpen == old(authModalOpen)
    {
      currentPage := page;
      if page != 1 {
        optimisticComments := [];
      }
    }

    /** `handleSubmitComment` up to its `await`. Without a user only the
        sign-in dialog opens; with whitespace-only text nothing happens;
        otherwise the new comment is put in front of the optimistic list
        under `optimisticId` and the box is cleared. */
    method BeginSubmitComment(user: Option<User>, optimisticId: string) returns (ticket: Option<SubmitTicket>)
      modifies this
      ensures user.None? ==> ticket.None? && authModalOpen && newComment == old(newComment) && isFocused == old(isFocused)
      ensures user.Some? && TrimIsEmpty(old(newComment)) ==>
        ticket.None? && authModalOpen == old(authModalOpen) && newComment == old(newComment) && isFocused == old(isFocused)
      ensures ticket.None? ==> optimisticComments == old(optimisticComments)
      ensures user.Some? && !TrimIsEmpty(old(newComment)) ==>
        ticket == Some(SubmitTicket(optimisticId, old(newComment), old(currentPage)))
      ensures user.Some? && !TrimIsEmpty(old(newComment)) ==>
        optimisticComments ==
          [Comment(optimisticId, old(newComment), OptimisticAuthor(user.value), Some(0), true)] + old(optimisticComments)
      ensures user.Some? && !TrimIsEmpty(old(newComment)) ==>
        newComment == "" && !isFocused && authModalOpen == old(authModalOpen)
      ensures comments == old(comments) && currentPage == old(currentPage) && metadata == old(metadata) && refetches == old(refetches)
    {
      ticket := None;
      if user.None? {
        authModalOpen := true;
      } else {
        var text := newComment;
        if !TrimIsEmpty(text) {
          var c := Comment(optimisticId, text, OptimisticAuthor(user.value), Some(0), true);
          ticket := Some(SubmitTicket(optimisticId, text, currentPage));
          newComment := "";
          isFocused := false;
          optimisticComments := [c] + optimisticComments;
        }
      }
    }

    /** `handleSubmitComment` after its `await`. On success it returns to
        page 1 when the post was made elsewhere (keeping the optimistic
        comments, since it does not go through `handlePageChange`), and
        otherwise refetches; on failure it removes the optimistic comment
        with the ticket's id and nothing else. */
    method FinishSubmitComment(ticket: SubmitTicket, ok: bool)
      modifies this
      ensures ok ==> optimisticComments == old(optimisticComments)
      ensures ok && ticket.pageAtSubmit != 1 ==> currentPage == 1 && refetches == old(refetches)
      ensures ok && ticket.pageAtSubmit == 1 ==> currentPage == old(currentPage) && refetches == old(refetches) + 1
      ensures !ok ==> optimisticComments == RemoveComment(old(optimisticComments), ticket.optimisticId) &&
                      currentPage == old(currentPage) && refetches == old(refetches)
      ensures comments == old(comments) && metadata == old(metadata)
      ensures newComment == old(newComment) && isFocused == old(isFocused) && authModalOpen == old(authModalOpen)
    {
      if ok {
        if ticket.pageAtSubmit != 1 {
          currentPage := 1;
        } else {
          refetches := refetches + 1;
        }
      } else {
        optimisticComments := RemoveComment(optimisticComments, ticket.optimisticId);
      }
    }
  }

  /** How a replies load ended: the query's data (`None` when it is not an
      array), or a thrown error. */
  datatype LoadOutcome = Loaded(data: Option<seq<Reply>>) | LoadFailed

  /** What `handleReplySubmit` captured before its `await`. */
  datatype ReplyTicket = ReplyTicket(optimisticId: string, content: string, loadedAtSubmit: bool)

  /** `CommentReplies`: the replies under one comment. */
  class CommentReplies {
    const commentId: string
    /** The advertised number of replies passed in by the comment. */
    const repliesCount: int
    var replies: seq<Reply>
    var isLoading: bool
    var isError: bool
    var optimisticReplies: seq<Reply>
    var showReplies: bool
    var repliesLoaded: bool
    var isReplying: bool
    var replyText: string
    var authModalOpen: bool

    constructor (commentId: string, repliesCount: int)
      ensures this.commentId == commentId && this.repliesCount == repliesCount
      ensures replies == [] && optimisticReplies == [] && replyText == ""
      ensures !isLoading && !isError && !showReplies && !repliesLoaded && !isReplying && !authModalOpen
    {
      this.commentId := commentId;
      this.repliesCount := repliesCount;
      replies := [];
      isLoading := false;
      isError := false;
      optimisticReplies := [];
      showReplies := false;
      repliesLoaded := false;
      isReplying := false;
      replyText := "";
      authModalOpen := false;
    }

    /** `displayReplies`: confirmed replies first, then the optimistic ones. */
    function DisplayReplies(): seq<Reply>
      reads this
    {
      replies + optimisticReplies
    }

    /** `displayRepliesCount`. */
    function DisplayRepliesCount(): int
      reads this
    {
      if repliesLoaded then |replies| + |optimisticReplies| else repliesCount
    }

    /** Typing into the reply box. */
    method Type(text: string)
      modifies this
      ensures replyText == text && isReplying == old(isReplying) && authModalOpen == old(authModalOpen)
      ensures replies == old(replies) && optimisticReplies == old(optimisticReplies)
      ensures isLoading == old(isLoading) && isError == old(isError)
      ensures showReplies == old(showReplies) && repliesLoaded == old(repliesLoaded)
    {
      replyText := text;
    }

    /** The "Reply" button flips the reply box. */
    method ToggleReplying()
      modifies this
      ensures isReplying == !old(isReplying) && replyText == old(replyText) && authModalOpen == old(authModalOpen)
      ensures replies == old(replies) && optimisticReplies == old(optimisticReplies)
      ensures isLoading == old(isLoading) && isError == old(isError)
      ensures showReplies == old(showReplies) && repliesLoaded == old(repliesLoaded)
    {
      isReplying := !isReplying;
    }

    /** `handleCancelReply`. */
    method CancelReply()
      modifies this
      ensures replyText == "" && !isReplying && authModalOpen == old(authModalOpen)
      ensures replies == old(replies) && optimisticReplies == old(optimisticReplies)
      ensures isLoading == old(isLoading) && isError == old(isError)
      ensures showReplies == old(showReplies) && repliesLoaded == old(repliesLoaded)
    {
      replyText := "";
      isReplying := false;
    }

    /** `loadReplies` up to its `await`. */
    method BeginLoad()
      modifies this
      ensures isLoading
      ensures replies == old(replies) && optimisticReplies == old(optimisticReplies) && isError == old(isError)
      ensures showReplies == old(showReplies) && repliesLoaded == old(repliesLoaded)
      ensures isReplying == old(isReplying) && replyText == old(replyText) && authModalOpen == old(authModalOpen)
    {
      isLoading := true;
    }

    /** `loadReplies` after its `await`. Fetched replies of other comments
        are dropped, the confirmed list is replaced, and the optimistic
        replies whose `content-parent_id` key is confirmed are dropped
        (whoever wrote them). A failed load only raises `isError`. */
    method FinishLoad(outcome: LoadOutcome)
      modifies this
      ensures !isLoading
      ensures outcome.Loaded? && outcome.data.Some? ==>
        replies == RepliesOf(outcome.data.value, commentId) &&
        optimisticReplies == PruneReplies(old(optimisticReplies), replies)
      ensures outcome.Loaded? && outcome.data.Some? ==>
        forall i :: 0 <= i < |replies| ==> replies[i].parentId == commentId
      ensures !(outcome.Loaded? && outcome.data.Some?) ==>
        replies == old(replies) && optimisticReplies == old(optimisticReplies)
      ensures outcome.Loaded? ==> repliesLoaded && showReplies && isError == old(isError)
      ensures outcome.LoadFailed? ==> isError && repliesLoaded == old(repliesLoaded) && showReplies == old(showReplies)
      ensures isReplying == old(isReplying) && replyText == old(replyText) && authModalOpen == old(authModalOpen)
    {
      if outcome.Loaded? {
        if outcome.data.Some? {
          replies := RepliesOf(outcome.data.value, commentId);
          optimisticReplies := PruneReplies(optimisticReplies, replies);
        }
        repliesLoaded := true;
        showReplies := true;
      } else {
        isError := true;
      }
      isLoading := false;
    }

    /** `toggleReplies`: the first opening of a comment that advertises
        replies starts a load; otherwise the list is shown or hidden. */
    method ToggleReplies() returns (startedLoad: bool)
      modifies this
      ensures startedLoad <==> !old(repliesLoaded) && repliesCount > 0
      ensures startedLoad ==> isLoading && showReplies == old(showReplies)
      ensures !startedLoad ==> showReplies == !old(showReplies) && isLoading == old(isLoading)
      ensures replies == old(replies) && optimisticReplies == old(optimisticReplies)
      ensures isError == old(isError) && repliesLoaded == old(repliesLoaded)
      ensures isReplying == old(isReplying) && replyText == old(replyText) && authModalOpen == old(authModalOpen)
    {
      startedLoad := !repliesLoaded && repliesCount > 0;
      if startedLoad {
        BeginLoad();
      } else {
        showReplies := !showReplies;
      }
    }

    /** `handleReplySubmit` up to its `await`. Without a user only the
        sign-in dialog opens; with whitespace-only text nothing happens;
        otherwise the reply is appended to the optimistic replies, the box is
        closed and the list shown, and a load starts only for a comment not
        yet loaded that advertises replies, so a reply to a comment
        advertising none stays optimistic until another load. */
    method BeginReplySubmit(user: Option<User>, optimisticId: string) returns (ticket: Option<ReplyTicket>, startedLoad: bool)
      modifies this
      ensures user.None? ==> ticket.None? && authModalOpen && replyText == old(replyText) && isReplying == old(isReplying)
      ensures user.Some? && TrimIsEmpty(old(replyText)) ==>
        ticket.None? && authModalOpen == old(authModalOpen) && replyText == old(replyText) && isReplying == old(isReplying)
      ensures ticket.None? ==>
        !startedLoad && optimisticReplies == old(optimisticReplies) &&
        showReplies == old(showReplies) && isLoading == old(isLoading)
      ensures user.Some? && !TrimIsEmpty(old(replyText)) ==>
        ticket == Some(ReplyTicket(optimisticId, old(replyText), old(repliesLoaded))) &&
        optimisticReplies ==
          old(optimisticReplies) + [Reply(optimisticId, old(replyText), commentId, OptimisticAuthor(user.value), true)] &&
        replyText == "" && !isReplying && showReplies && authModalOpen == old(authModalOpen) &&
        (startedLoad <==> !old(repliesLoaded) && repliesCount > 0) &&
        isLoading == (startedLoad || old(isLoading))
      ensures replies == old(replies) && isError == old(isError) && repliesLoaded == old(repliesLoaded)
    {
      ticket, startedLoad := None, false;
      if user.None? {
        authModalOpen := true;
      } else {
        var text := replyText;
        if !TrimIsEmpty(text) {
          var r := Reply(optimisticId, text, commentId, OptimisticAuthor(user.value), true);
          optimisticReplies := optimisticReplies + [r];
          ticket := Some(ReplyTicket(optimisticId, text, repliesLoaded));
          replyText := "";
          isReplying := false;
          showReplies := true;
          if !repliesLoaded && repliesCount > 0 {
            BeginLoad();
            startedLoad := true;
          }
        }
      }
    }

    /** `handleReplySubmit` after its `await`. On success it reloads only if
        the replies were loaded when the reply was sent (the value its
        closure captured); on failure it removes the optimistic reply with
        the ticket's id and nothing else. */
    method FinishReplySubmit(ticket: ReplyTicket, ok: bool) returns (startedLoad: bool)
      modifies this
      ensures startedLoad <==> ok && ticket.loadedAtSubmit
      ensures isLoading == (startedLoad || old(isLoading))
      ensures ok ==> optimisticReplies == old(optimisticReplies)
      ensures !ok ==> optimisticReplies == RemoveReply(old(optimisticReplies), ticket.optimisticId)
      ensures replies == old(replies) && isError == old(isError)
      ensures showReplies == old(showReplies) && repliesLoaded == old(repliesLoaded)
      ensures isReplying == old(isReplying) && replyText == old(replyText) && authModalOpen == old(authModalOpen)
    {
      startedLoad := ok && ticket.loadedAtSubmit;
      if startedLoad {
        BeginLoad();
      } else if !ok {
        optimisticReplies := RemoveReply(optimisticReplies, ticket.optimisticId);
      }
    }
  }

  /** What `handleEditSubmit` captured before its `await`. */
  datatype EditTicket = EditTicket(original: string, sent: string)

  /** `Comment`: one rendered comment. `content` is the `content` field of the
      comment object the component was given, which the edit handler
      overwrites in place. */
  /** One rendered comment. `isEditable` is fixed when the comment renders:
      the signed-in user's id equals the author's id, where either may be
      missing and two missing ids are equal (`undefined === undefined`). The
      options button, the menu and its Edit and Delete entries exist only
      when it holds. */
  class CommentItem {
    var content: string
    var editText: string
    var isEditing: bool
    var showOptions: bool
    const isEditable: bool

    constructor (content: string, userId: Option<string>, authorId: Option<string>)
      ensures this.content == content && editText == content && !isEditing && !showOptions
      ensures isEditable <==> userId == authorId
    {
      this.content := content;
      editText := content;
      isEditing := false;
      showOptions := false;
      isEditable := userId == authorId;
    }

    /** The menu is on screen, so its element is what `optionsRef` holds. */
    predicate MenuMounted()
      reads this
    {
      showOptions && isEditable
    }

    /** The menu's "Edit" entry opens the editor and closes the menu. */
    method StartEditing()
      requires MenuMounted()
      modifies this
      ensures isEditing && !showOptions && content == old(content) && editText == old(editText)
    {
      isEditing := true;
      showOptions := false;
    }

    /** Typing into the editor. */
    method Type(text: string)
      modifies this
      ensures editText == text && content == old(content)
      ensures isEditing == old(isEditing) && showOptions == old(showOptions)
    {
      editText := text;
    }

    /** The editor's cancel button puts the current content back. */
    method CancelEditing()
      modifies this
      ensures editText == old(content) && content == old(content) && !isEditing && showOptions == old(showOptions)
    {
      editText := content;
      isEditing := false;
    }

    /** `handleEditSubmit` up to its `await`: whitespace-only text is
        refused with no change; otherwise the new text replaces the content
        at once and the editor closes. */
    method BeginEdit() returns (ticket: Option<EditTicket>)
      modifies this
      ensures IsBlank(old(editText)) ==> ticket.None? && content == old(content) && isEditing == old(isEditing)
      ensures !IsBlank(old(editText)) ==>
        ticket == Some(EditTicket(old(content), old(editText))) && content == old(editText) && !isEditing
      ensures editText == old(editText) && showOptions == old(showOptions)
    {
      if TrimIsEmpty(editText) {
        return None;
      }
      ticket := Some(EditTicket(content, editText));
      content := editText;
      isEditing := false;
    }

    /** `handleEditSubmit` after its `await`: a failed edit restores the
        original content and puts it back in the editor. */
    method FinishEdit(ticket: EditTicket, ok: bool)
      modifies this
      ensures ok ==> content == old(content) && editText == old(editText)
      ensures !ok ==> content == ticket.original && editText == ticket.original
      ensures isEditing == old(isEditing) && showOptions == old(showOptions)
    {
      if !ok {
        content := ticket.original;
        editText := ticket.original;
      }
    }

    /** `toggleOptions`, the click handler of the options button, which is
        rendered only for the author. The click comes after the button's
        `mousedown`, which has already closed an open menu: see
        `PressOptionsButton`. */
    method ToggleOptions()
      requires isEditable
      modifies this`showOptions
      ensures showOptions == !old(showOptions)
    {
      showOptions := !showOptions;
    }

    /** `handleClickOutside` on a document `mousedown`: a press outside the
        mounted menu closes it; a press inside it, or while no menu is
        mounted, leaves `showOptions` as it is. */
    method PressOutside(insideMenu: bool)
      requires insideMenu ==> MenuMounted()
      modifies this`showOptions
      ensures showOptions == (old(showOptions) && (!isEditable || insideMenu))
    {
      if MenuMounted() && !insideMenu {
        showOptions := false;
      }
    }

    /** A full press of the options button: its `mousedown` lands outside
        the menu, then its click toggles. The button therefore always leaves
        the menu open, whether it was open or closed before. */
    method PressOptionsButton()
      requires isEditable
      modifies this`showOptions
      ensures showOptions
    {
      PressOutside(false);
      ToggleOptions();
    }

    /** `handleDeleteComment` up to its `await`, from the menu's "Delete"
        entry: the request starts and nothing changes, so the menu stays
        open while the delete is pending. */
    method BeginDelete()
      requires MenuMounted()
      ensures MenuMounted()
    {
    }

    /** `handleDeleteComment` after its `await`: a successful delete only
        closes the menu, whatever happened to it meanwhile; a failed one
        changes nothing. The comment stays in every list until the next
        fetch. */
    method FinishDelete(ok: bool)
      modifies this`showOptions
      ensures showOptions == (old(showOptions) && !ok)
    {
      if ok {
        showOptions := false;
      }
    }
  }

  /** The author opens the menu and presses Delete: the menu is closed
      again exactly when the delete succeeds; the content is untouched
      either way. The press on the Delete entry lands inside the menu. */
  method OpenThenDelete(item: CommentItem, ok: bool)
    requires item.isEditable
    modifies item
    ensures item.showOptions == !ok && item.content == old(item.content)
  {
    item.PressOptionsButton();
    item.PressOutside(true);
    item.BeginDelete();
    item.FinishDelete(ok);
  }

  /** Posting on page 1 and then failing leaves the displayed thread as it
      was before the post, provided ids are fresh. */
  method SubmitThenFail(section: CommentsSection, user: User, optimisticId: string)
    requires section.currentPage == 1
    requires forall i :: 0 <= i < |section.optimisticComments| ==> section.optimisticComments[i].id != optimisticId
    modifies section
    ensures section.optimisticComments == old(section.optimisticComments)
    ensures section.comments == old(section.comments) && section.currentPage == 1
  {
    var before := section.optimisticComments;
    var ticket := section.BeginSubmitComment(Some(user), optimisticId);
    if ticket.Some? {
      var after := section.optimisticComments;
      assert after == [after[0]] + before;
      forall i | 0 <= i < |after| ensures (after[i].id != optimisticId <==> i != 0) {
        if i > 0 { assert after[i] == before[i - 1]; }
      }
      FilterRemovesOne(after, 0, (c: Comment) => c.id != optimisticId);
      assert after[1..] == before;
      section.FinishSubmitComment(ticket.value, false);
    }
  }
}
