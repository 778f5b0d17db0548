/** The REST handlers over the data store that make decisions of their own: the vote
    toggle and its validation, comment validation, and the 404 answers for missing
    ideas. Request bodies arrive already parsed; the schema validation of idea bodies
    is a parameter (`None` when it rejects the body). */
module Routes {
  import opened Wrappers
  import opened OrderedMaps
  import opened Storage
  import Json

  /** What a handler sends: a status with a body, or a status with a message. */
  datatype Outcome<T> = Sent(status: int, body: T) | Refused(status: int, message: string)

  /** `!userId || !type || !['up', 'down'].includes(type)` fails: the vote is
      malformed. A numeric user id is falsy when absent or 0. */
  predicate VoteAccepted(userId: Option<int>, voteType: Json.Value) {
    userId.Some? && userId.value != 0 && (voteType == Json.Str("up") || voteType == Json.Str("down"))
  }

  /** The votes and vote counter after an accepted vote: the same type again removes
      the user's vote, anything else creates or retypes it. */
  function Toggled(votes: OrderedMap<string, Vote>, next: int, ideaId: int, userId: int, voteType: string)
    : (r: (OrderedMap<string, Vote>, int))
    requires votes.Valid()
  {
    var key := VoteKey(ideaId, userId);
    if key in votes.entries && votes.entries[key].voteType == voteType then (votes.Delete(key), next)
    else
      var (after, next', _) := Upserted(votes, next, InsertVote(ideaId, userId, voteType));
      (after, next')
  }

  /** An accepted vote keeps the store's invariant, and afterwards the user either has
      no vote on the idea (when the same type was repeated) or exactly one, of the
      type voted; every other pair keeps its vote. */
  lemma ToggledFacts(votes: OrderedMap<string, Vote>, next: int, ideaId: int, userId: int, voteType: string)
    requires VotesKeyed(votes, next)
    ensures var (after, next') := Toggled(votes, next, ideaId, userId, voteType);
      var key := VoteKey(ideaId, userId);
      && VotesKeyed(after, next')
      && (forall k :: k != key ==> (k in after.entries <==> k in votes.entries))
      && (forall k :: k != key && k in after.entries ==> after.entries[k] == votes.entries[k])
      && (key in votes.entries && votes.entries[key].voteType == voteType ==> key !in after.entries)
      && (!(key in votes.entries && votes.entries[key].voteType == voteType) ==>
            key in after.entries && after.entries[key].voteType == voteType
            && after.entries[key].ideaId == ideaId && after.entries[key].userId == userId)
  {
    UpsertedFacts(votes, next, InsertVote(ideaId, userId, voteType));
    DeleteVoteKeeps(votes, next, ideaId, userId);
  }

  /** Voting the same type twice from no vote leaves no vote and every other vote as
      it was; only the vote counter has moved on. */
  lemma {:induction false} SameVoteTwiceCancels(votes: OrderedMap<string, Vote>, next: int, ideaId: int, userId: int, voteType: string)
    requires VotesKeyed(votes, next) && VoteKey(ideaId, userId) !in votes.entries
    ensures var (once, next1) := Toggled(votes, next, ideaId, userId, voteType);
      once.Valid() && Toggled(once, next1, ideaId, userId, voteType).0.entries == votes.entries
  {
    var key := VoteKey(ideaId, userId);
    ToggledFacts(votes, next, ideaId, userId, voteType);
    var (once, next1) := Toggled(votes, next, ideaId, userId, voteType);
    assert once.entries == votes.entries[key := once.entries[key]];
  }

  /** Voting up and then down from no vote leaves exactly the user's down vote. */
  lemma UpThenDown(votes: OrderedMap<string, Vote>, next: int, ideaId: int, userId: int)
    requires VotesKeyed(votes, next) && VoteKey(ideaId, userId) !in votes.entries
    ensures var (once, next1) := Toggled(votes, next, ideaId, userId, "up");
      var (twice, next2) := Toggled(once, next1, ideaId, userId, "down");
      var key := VoteKey(ideaId, userId);
      && key in twice.entries && twice.entries[key] == Vote(next, ideaId, userId, "down")
      && twice.entries.Keys == votes.entries.Keys + {key}
  {
    ToggledFacts(votes, next, ideaId, userId, "up");
  }

  /** POST /api/ideas/:id/vote: validate, toggle, then answer the idea's counts. */
  method VoteOnIdea(storage: MemStorage, ideaId: int, userId: Option<int>, voteType: Json.Value)
    returns (r: Outcome<(nat, nat)>)
    requires storage.Valid()
    modifies storage
    ensures storage.Valid()
    ensures !VoteAccepted(userId, voteType) ==>
      r == Refused(400, "Invalid vote data") && unchanged(storage)
    ensures VoteAccepted(userId, voteType) ==>
      && (storage.votes, storage.currentVoteId)
         == Toggled(old(storage.votes), old(storage.currentVoteId), ideaId, userId.value, voteType.s)
      && storage.users == old(storage.users) && storage.ideas == old(storage.ideas)
      && storage.comments == old(storage.comments)
      && storage.currentUserId == old(storage.currentUserId) && storage.currentIdeaId == old(storage.currentIdeaId)
      && storage.currentCommentId == old(storage.currentCommentId)
      && r == Sent(200, Tally(storage.votes.Values(), ideaId))
  {
    if !VoteAccepted(userId, voteType) {
      return Refused(400, "Invalid vote data");
    }
    ghost var t := Toggled(storage.votes, storage.currentVoteId, ideaId, userId.value, voteType.s);
    var existing := storage.GetUserVote(ideaId, userId.value);
    if existing.Some? && existing.value.voteType == voteType.s {
      var _ := storage.DeleteVote(ideaId, userId.value);
    } else {
      var _ := storage.CreateOrUpdateVote(InsertVote(ideaId, userId.value, voteType.s));
    }
    assert (storage.votes, storage.currentVoteId) == t;
    var upvotes, downvotes := storage.GetIdeaVotes(ideaId);
    r := Sent(200, (upvotes, downvotes));
  }

  /** POST /api/ideas/:id/comments: `!userId || !content` is refused. */
  method AddComment(storage: MemStorage, ideaId: int, userId: Option<int>, content: Option<string>, now: int)
    returns (r: Outcome<Comment>)
    requires storage.Valid()
    modifies storage
    ensures storage.Valid()
    ensures (userId.None? || userId.value == 0 || content.None? || content.value == "") ==>
      r == Refused(400, "Missing required fields") && unchanged(storage)
    ensures userId.Some? && userId.value != 0 && content.Some? && content.value != "" ==>
      && r == Sent(201, Comment(old(storage.currentCommentId), ideaId, userId.value, content.value, now))
      && storage.comments == old(storage.comments).Set(r.body.id, r.body)
      && r.body.id !in old(storage.comments.entries)
      && storage.currentCommentId == old(storage.currentCommentId) + 1
    ensures storage.users == old(storage.users) && storage.ideas == old(storage.ideas)
    ensures storage.votes == old(storage.votes)
    ensures storage.currentUserId == old(storage.currentUserId) && storage.currentIdeaId == old(storage.currentIdeaId)
    ensures storage.currentVoteId == old(storage.currentVoteId)
  {
    if userId.None? || userId.value == 0 || content.None? || content.value == "" {
      return Refused(400, "Missing required fields");
    }
    var comment := storage.CreateComment(InsertComment(ideaId, userId.value, content.value), now);
    r := Sent(201, comment);
  }

  /** GET /api/ideas/:id. */
  method GetIdeaRoute(storage: MemStorage, id: int) returns (r: Outcome<IdeaWithDetails>)
    requires storage.Valid()
    ensures r.Refused? <==> id !in storage.ideas.entries || storage.ideas.entries[id].authorId !in storage.users.entries
    ensures r.Refused? ==> r == Refused(404, "Idea not found")
    ensures r.Sent? ==>
      && r.status == 200 && r.body.idea == storage.ideas.entries[id]
      && Some(r.body) == Detail(storage.ideas.entries[id], storage.users.entries, storage.votes.Values(), storage.comments.Values())
      && r.body.author == storage.users.entries[r.body.idea.authorId]
      && (r.body.upvotes, r.body.downvotes) == Tally(storage.votes.Values(), id)
  {
    var idea := storage.GetIdea(id);
    if idea.None? {
      return Refused(404, "Idea not found");
    }
    r := Sent(200, idea.value);
  }

  /** PATCH /api/ideas/:id: an invalid body is 400, a missing idea 404. */
  method PatchIdea(storage: MemStorage, id: int, parsed: Option<IdeaUpdate>) returns (r: Outcome<Idea>)
    requires storage.Valid()
    modifies storage
    ensures storage.Valid()
    ensures parsed.None? ==> r == Refused(400, "Invalid idea data") && unchanged(storage)
    ensures parsed.Some? && id !in old(storage.ideas.entries) ==>
      r == Refused(404, "Idea not found") && storage.ideas == old(storage.ideas)
    ensures parsed.Some? && id in old(storage.ideas.entries) ==>
      && r == Sent(200, MergeIdea(old(storage.ideas.entries[id]), parsed.value))
      && storage.ideas == old(storage.ideas).Set(id, r.body)
    ensures storage.users == old(storage.users) && storage.votes == old(storage.votes)
    ensures storage.comments == old(storage.comments)
    ensures storage.currentUserId == old(storage.currentUserId) && storage.currentIdeaId == old(storage.currentIdeaId)
    ensures storage.currentVoteId == old(storage.currentVoteId) && storage.currentCommentId == old(storage.currentCommentId)
  {
    if parsed.None? {
      return Refused(400, "Invalid idea data");
    }
    var idea := storage.UpdateIdea(id, parsed.value);
    if idea.None? {
      return Refused(404, "Idea not found");
    }
    r := Sent(200, idea.value);
  }

  /** DELETE /api/ideas/:id: 204 with no body, or 404. */
  method DeleteIdeaRoute(storage: MemStorage, id: int) returns (r: Outcome<()>)
    requires storage.Valid()
    modifies storage
    ensures storage.Valid()
    ensures id in old(storage.ideas.entries) ==> r == Sent(204, ())
    ensures id !in old(storage.ideas.entries) ==> r == Refused(404, "Idea not found")
    ensures storage.ideas == old(storage.ideas).Delete(id)
    ensures storage.users == old(storage.users) && storage.votes == old(storage.votes)
    ensures storage.comments == old(storage.comments)
    ensures storage.currentUserId == old(storage.currentUserId) && storage.currentIdeaId == old(storage.currentIdeaId)
    ensures storage.currentVoteId == old(storage.currentVoteId) && storage.currentCommentId == old(storage.currentCommentId)
  {
    var deleted := storage.DeleteIdea(id);
    if !deleted {
      return Refused(404, "Idea not found");
    }
    r := Sent(204, ());
  }
}
