/** The in-memory data store behind the idea board: four maps (users, ideas, votes,
    comments) and four id counters. A user, idea or comment is stored under its own
    id; a vote is stored under the text `${ideaId}-${userId}`, which makes the store
    hold at most one vote per idea and user. Dates are milliseconds since the epoch. */
module Storage {
  import opened Wrappers
  import opened OrderedMaps
  import opened Seqs
  import opened Sorting
  import opened Strings

  datatype User = User(id: int, username: string, password: string, avatar: Option<string>, role: Option<string>)
  datatype InsertUser = InsertUser(username: string, password: string, avatar: Option<string>, role: Option<string>)

  datatype Idea = Idea(
    id: int,
    title: string,
    description: string,
    category: string,
    tags: Option<seq<string>>,
    images: Option<seq<string>>,
    authorId: int,
    createdAt: int)

  datatype InsertIdea = InsertIdea(
    title: string,
    description: string,
    category: string,
    tags: Option<seq<string>>,
    images: Option<seq<string>>,
    authorId: int)

  /** A `Partial<InsertIdea>`: each field either supplied or absent. */
  datatype IdeaUpdate = IdeaUpdate(
    title: Option<string>,
    description: Option<string>,
    category: Option<string>,
    tags: Option<Option<seq<string>>>,
    images: Option<Option<seq<string>>>,
    authorId: Option<int>)

  /** `voteType` is the `type` column: "up" or "down". */
  datatype Vote = Vote(id: int, ideaId: int, userId: int, voteType: string)
  datatype InsertVote = InsertVote(ideaId: int, userId: int, voteType: string)

  datatype Comment = Comment(id: int, ideaId: int, userId: int, content: string, createdAt: int)
  datatype InsertComment = InsertComment(ideaId: int, userId: int, content: string)

  datatype IdeaWithDetails = IdeaWithDetails(idea: Idea, author: User, upvotes: nat, downvotes: nat, commentCount: nat)
  datatype CommentWithAuthor = CommentWithAuthor(comment: Comment, author: User)
  datatype Stats = Stats(totalIdeas: nat, totalVotes: nat, activeUsers: nat)

  // ---------------------------------------------------------------------------
  // The vote key.

  /** `${ideaId}-${userId}`. */
  function VoteKey(ideaId: int, userId: int): string {
    IntToString(ideaId) + "-" + IntToString(userId)
  }

  /** The position of the first '-' at or after `i`, or the length. */
  function FirstDash(s: string, i: nat): (r: nat)
    ensures r <= |s| || r == i
    decreases |s| - i
  {
    if i >= |s| then i
    else if s[i] == '-' then i
    else FirstDash(s, i + 1)
  }

  /** In `x + "-" + rest` where `x` holds no '-' after its first character, the first
      '-' after the first character is the separator. */
  lemma {:induction false} FirstDashIsSeparator(x: string, rest: string, i: nat)
    requires 1 <= i <= |x|
    requires forall j :: 1 <= j < |x| ==> IsDigit(x[j])
    ensures FirstDash(x + "-" + rest, i) == |x|
    decreases |x| - i
  {
    var s := x + "-" + rest;
    if i < |x| {
      assert s[i] == x[i];
      FirstDashIsSeparator(x, rest, i + 1);
    } else {
      assert s[i] == '-';
    }
  }

  /** Different (idea, user) pairs get different keys: the text before the first
      '-' after the first character is the idea id, the text after it the user id. */
  lemma VoteKeyInjective(a: int, b: int, c: int, d: int)
    requires VoteKey(a, b) == VoteKey(c, d)
    ensures a == c && b == d
  {
    var x, y := IntToString(a), IntToString(c);
    FirstDashIsSeparator(x, IntToString(b), 1);
    FirstDashIsSeparator(y, IntToString(d), 1);
    var s := VoteKey(a, b);
    assert |x| == |y|;
    assert x == s[..|x|] == y;
    IntToStringInjective(a, c);
    assert IntToString(b) == s[|x| + 1..] == IntToString(d);
    IntToStringInjective(b, d);
  }

  // ---------------------------------------------------------------------------
  // The store invariants, as predicates on the maps.

  /** Every entity is stored under its own id, and every id is below the counter that
      will hand out the next one. */
  predicate UsersKeyed(users: OrderedMap<int, User>, next: int) {
    users.Valid() && forall k :: k in users.entries ==> users.entries[k].id == k && k < next
  }

  predicate IdeasKeyed(ideas: OrderedMap<int, Idea>, next: int) {
    ideas.Valid() && forall k :: k in ideas.entries ==> ideas.entries[k].id == k && k < next
  }

  predicate CommentsKeyed(comments: OrderedMap<int, Comment>, next: int) {
    comments.Valid() && forall k :: k in comments.entries ==> comments.entries[k].id == k && k < next
  }

  /** Every vote is stored under the key of its own (idea, user) pair, and its id is
      below the vote counter. */
  predicate VotesKeyed(votes: OrderedMap<string, Vote>, next: int) {
    votes.Valid()
    && forall k :: k in votes.entries ==>
         k == VoteKey(votes.entries[k].ideaId, votes.entries[k].userId) && votes.entries[k].id < next
  }

  /** The vote found under the key of a pair is that pair's vote. */
  lemma VoteUnderItsKey(votes: OrderedMap<string, Vote>, next: int, ideaId: int, userId: int)
    requires VotesKeyed(votes, next) && VoteKey(ideaId, userId) in votes.entries
    ensures votes.entries[VoteKey(ideaId, userId)].ideaId == ideaId
    ensures votes.entries[VoteKey(ideaId, userId)].userId == userId
  {
    var v := votes.entries[VoteKey(ideaId, userId)];
    VoteKeyInjective(ideaId, userId, v.ideaId, v.userId);
  }

  /** At most one vote per (idea, user): two stored votes for the same pair are the
      same entry. */
  lemma OneVotePerPair(votes: OrderedMap<string, Vote>, next: int, k1: string, k2: string)
    requires VotesKeyed(votes, next) && k1 in votes.entries && k2 in votes.entries
    requires votes.entries[k1].ideaId == votes.entries[k2].ideaId
    requires votes.entries[k1].userId == votes.entries[k2].userId
    ensures k1 == k2
  {
  }

  // ---------------------------------------------------------------------------
  // Writes, as functions of the old maps.

  /** `{ ...idea, ...updateData }`. */
  function MergeIdea(idea: Idea, u: IdeaUpdate): Idea {
    Idea(
      idea.id,
      u.title.GetOr(idea.title),
      u.description.GetOr(idea.description),
      u.category.GetOr(idea.category),
      u.tags.GetOr(idea.tags),
      u.images.GetOr(idea.images),
      u.authorId.GetOr(idea.authorId),
      idea.createdAt)
  }

  /** What `createOrUpdateVote` leaves: the votes, the vote counter and the vote it
      returns. A present pair keeps its vote id and changes only the type. */
  function Upserted(votes: OrderedMap<string, Vote>, next: int, v: InsertVote)
    : (r: (OrderedMap<string, Vote>, int, Vote))
    requires votes.Valid()
  {
    var key := VoteKey(v.ideaId, v.userId);
    if key in votes.entries then
      var updated := votes.entries[key].(voteType := v.voteType);
      (votes.Set(key, updated), next, updated)
    else
      var vote := Vote(next, v.ideaId, v.userId, v.voteType);
      (votes.Set(key, vote), next + 1, vote)
  }

  /** `createOrUpdateVote` keeps the invariant; afterwards the pair has exactly the
      returned vote, with the new type; on a present pair the id is kept and the
      counter untouched, on a new pair the id is the old counter, which was unused. */
  lemma UpsertedFacts(votes: OrderedMap<string, Vote>, next: int, v: InsertVote)
    requires VotesKeyed(votes, next)
    ensures var (after, next', vote) := Upserted(votes, next, v);
      var key := VoteKey(v.ideaId, v.userId);
      && VotesKeyed(after, next')
      && after.entries == votes.entries[key := vote]
      && vote.ideaId == v.ideaId && vote.userId == v.userId && vote.voteType == v.voteType
      && (key in votes.entries ==> vote.id == votes.entries[key].id && next' == next)
      && (key !in votes.entries ==>
            vote.id == next && next' == next + 1 && forall k :: k in votes.entries ==> votes.entries[k].id != next)
  {
    var key := VoteKey(v.ideaId, v.userId);
    if key in votes.entries {
      VoteUnderItsKey(votes, next, v.ideaId, v.userId);
    }
  }

  /** `deleteVote`: removes the pair's vote, if any, and keeps the invariant. */
  lemma DeleteVoteKeeps(votes: OrderedMap<string, Vote>, next: int, ideaId: int, userId: int)
    requires VotesKeyed(votes, next)
    ensures VotesKeyed(votes.Delete(VoteKey(ideaId, userId)), next)
    ensures forall k :: k in votes.Delete(VoteKey(ideaId, userId)).entries ==>
      var w := votes.entries[k]; w.ideaId != ideaId || w.userId != userId
  {
  }

  // ---------------------------------------------------------------------------
  // Reads, as functions of the maps.

  function VoteOn(ideaId: int): Vote -> bool {
    (v: Vote) => v.ideaId == ideaId
  }

  function OfType(t: string): Vote -> bool {
    (v: Vote) => v.voteType == t
  }

  function CommentOn(ideaId: int): Comment -> bool {
    (c: Comment) => c.ideaId == ideaId
  }

  function InCategory(category: string): Idea -> bool {
    (i: Idea) => i.category == category
  }

  /** `getIdeaVotes`: the votes on the idea, then those of type "up" and "down". */
  function Tally(votes: seq<Vote>, ideaId: int): (nat, nat) {
    var on := Filter(votes, VoteOn(ideaId));
    (|Filter(on, OfType("up"))|, |Filter(on, OfType("down"))|)
  }

  /** A vote is never both up and down, so the two counts together never exceed the
      number of votes on the idea. */
  lemma TallyBound(votes: seq<Vote>, ideaId: int)
    ensures Tally(votes, ideaId).0 + Tally(votes, ideaId).1 <= |Filter(votes, VoteOn(ideaId))|
  {
    FilterExclusive(Filter(votes, VoteOn(ideaId)), OfType("up"), OfType("down"));
  }

  /** The comments whose author exists, each paired with the author, in order. */
  function WithAuthors(comments: seq<Comment>, users: map<int, User>): seq<CommentWithAuthor> {
    if comments == [] then []
    else
      var last := comments[|comments| - 1];
      WithAuthors(comments[..|comments| - 1], users)
        + (if last.userId in users then [CommentWithAuthor(last, users[last.userId])] else [])
  }

  lemma {:induction false} WithAuthorsMembers(comments: seq<Comment>, users: map<int, User>, c: CommentWithAuthor)
    ensures c in WithAuthors(comments, users)
        <==> c.comment in comments && c.comment.userId in users && c.author == users[c.comment.userId]
  {
    if comments != [] {
      var init := comments[..|comments| - 1];
      WithAuthorsMembers(init, users, c);
      assert comments == init + [comments[|comments| - 1]];
    }
  }

  /** Sort key of `getIdeaComments`: oldest first. */
  function CommentAge(c: CommentWithAuthor): int {
    -c.comment.createdAt
  }

  /** `getIdeaComments`. */
  function IdeaComments(comments: seq<Comment>, users: map<int, User>, ideaId: int): seq<CommentWithAuthor> {
    SortDesc(WithAuthors(Filter(comments, CommentOn(ideaId)), users), CommentAge)
  }

  /** `getIdeaComments(i)` lists exactly the comments on `i` whose author exists, each
      with its author, oldest first. */
  lemma IdeaCommentsFacts(comments: seq<Comment>, users: map<int, User>, ideaId: int)
    ensures var r := IdeaComments(comments, users, ideaId);
      && (forall c :: c in r <==>
            c.comment in comments && c.comment.ideaId == ideaId && c.comment.userId in users && c.author == users[c.comment.userId])
      && (forall i, j :: 0 <= i < j < |r| ==> r[i].comment.createdAt <= r[j].comment.createdAt)
  {
    var on := Filter(comments, CommentOn(ideaId));
    var listed := WithAuthors(on, users);
    var r := IdeaComments(comments, users, ideaId);
    forall c ensures c in r <==> c.comment in comments && c.comment.ideaId == ideaId
                                 && c.comment.userId in users && c.author == users[c.comment.userId] {
      assert c in r <==> c in multiset(listed);
      WithAuthorsMembers(on, users, c);
      FilterMembers(comments, CommentOn(ideaId), c.comment);
    }
    forall i, j | 0 <= i < j < |r| ensures r[i].comment.createdAt <= r[j].comment.createdAt {
      assert CommentAge(r[i]) >= CommentAge(r[j]);
    }
  }

  /** The listing entry of an idea: None when its author is missing. */
  function Detail(idea: Idea, users: map<int, User>, votes: seq<Vote>, comments: seq<Comment>): Option<IdeaWithDetails> {
    if idea.authorId in users then
      var (up, down) := Tally(votes, idea.id);
      Some(IdeaWithDetails(idea, users[idea.authorId], up, down, |IdeaComments(comments, users, idea.id)|))
    else None
  }

  /** The loop of `getIdeas`: the entries of the ideas whose author exists, in order. */
  function Details(ideas: seq<Idea>, users: map<int, User>, votes: seq<Vote>, comments: seq<Comment>): seq<IdeaWithDetails> {
    if ideas == [] then []
    else
      var last := ideas[|ideas| - 1];
      Details(ideas[..|ideas| - 1], users, votes, comments)
        + (match Detail(last, users, votes, comments) case Some(d) => [d] case None => [])
  }

  /** The loop of `getIdeas` takes one more idea. */
  lemma DetailsPrefix(ideas: seq<Idea>, i: nat, users: map<int, User>, votes: seq<Vote>, comments: seq<Comment>)
    requires i < |ideas|
    ensures Details(ideas[..i + 1], users, votes, comments)
      == Details(ideas[..i], users, votes, comments)
         + (match Detail(ideas[i], users, votes, comments) case Some(d) => [d] case None => [])
  {
    assert ideas[..i + 1][..i] == ideas[..i];
  }

  lemma {:induction false} DetailsMembers(ideas: seq<Idea>, users: map<int, User>, votes: seq<Vote>, comments: seq<Comment>, d: IdeaWithDetails)
    ensures d in Details(ideas, users, votes, comments)
        <==> d.idea in ideas && Detail(d.idea, users, votes, comments) == Some(d)
  {
    if ideas != [] {
      var init := ideas[..|ideas| - 1];
      DetailsMembers(init, users, votes, comments, d);
      assert ideas == init + [ideas[|ideas| - 1]];
    }
  }

  /** The category filter of `getIdeas`: none for an absent, empty or "all" category. */
  function CategoryFilter(ideas: seq<Idea>, category: Option<string>): seq<Idea> {
    if category.Some? && category.value != "" && category.value != "all" then Filter(ideas, InCategory(category.value))
    else ideas
  }

  function Popularity(d: IdeaWithDetails): int { d.upvotes - d.downvotes }
  function Recency(d: IdeaWithDetails): int { d.idea.createdAt }
  function Age(d: IdeaWithDetails): int { -d.idea.createdAt }
  function Discussion(d: IdeaWithDetails): int { d.commentCount }

  /** The sort key `getIdeas` uses for `sortBy`: the most popular first by default. */
  function SortKey(sortBy: Option<string>): IdeaWithDetails -> int {
    if sortBy == Some("newest") then Recency
    else if sortBy == Some("oldest") then Age
    else if sortBy == Some("discussed") then Discussion
    else Popularity
  }

  /** `getIdeas`. */
  function IdeaListing(ideas: seq<Idea>, users: map<int, User>, votes: seq<Vote>, comments: seq<Comment>,
                       category: Option<string>, sortBy: Option<string>): seq<IdeaWithDetails> {
    SortDesc(Details(CategoryFilter(ideas, category), users, votes, comments), SortKey(sortBy))
  }

  /** What `getIdeas` lists: exactly the ideas of the category (all of them for no
      category or "all") whose author exists, with their author and counts, ordered
      by the requested key. */
  lemma IdeaListingFacts(ideas: seq<Idea>, users: map<int, User>, votes: seq<Vote>, comments: seq<Comment>,
                         category: Option<string>, sortBy: Option<string>, d: IdeaWithDetails)
    ensures var r := IdeaListing(ideas, users, votes, comments, category, sortBy);
      && (d in r <==> d.idea in CategoryFilter(ideas, category) && Detail(d.idea, users, votes, comments) == Some(d))
      && (d in r && category.Some? && category.value != "" && category.value != "all" ==> d.idea.category == category.value)
      && (d in r ==> d.idea.authorId in users && d.author == users[d.idea.authorId])
      && SortedDesc(r, SortKey(sortBy))
  {
    var listed := Details(CategoryFilter(ideas, category), users, votes, comments);
    var r := IdeaListing(ideas, users, votes, comments, category, sortBy);
    assert d in r <==> d in multiset(listed);
    DetailsMembers(CategoryFilter(ideas, category), users, votes, comments, d);
    if category.Some? && category.value != "" && category.value != "all" {
      FilterMembers(ideas, InCategory(category.value), d.idea);
    }
  }

  /** `getUserByUsername`: the first user in map order with that name. */
  function FindByUsername(users: seq<User>, username: string): (r: Option<User>)
    ensures r.Some? ==> r.value in users && r.value.username == username
    ensures r.None? <==> forall i :: 0 <= i < |users| ==> users[i].username != username
  {
    if users == [] then None
    else if users[0].username == username then Some(users[0])
    else FindByUsername(users[1..], username)
  }

  // ---------------------------------------------------------------------------
  // The seed data.

  const SEED_USERS: seq<User> := [
    User(1, "sarah_chen", "password", None, Some("Product Manager")),
    User(2, "mike_johnson", "password", None, Some("Developer")),
    User(3, "lisa_park", "password", None, Some("Designer")),
    User(4, "david_kim", "password", None, Some("Manager")),
    User(5, "alex_rodriguez", "password", None, Some("Developer")),
    User(6, "emily_watson", "password", None, Some("QA Engineer")),
    User(7, "andrey_zakharov", "password", None, Some("Admin"))
  ]

  const DAY := 24 * 60 * 60 * 1000

  /** The descriptions of the seeded ideas. */
  const SEED_DESCRIPTION_1 :=
    "Implement an intelligent chatbot that "
    + "can handle basic customer inquiries and "
    + "route complex issues to human agents, "
    + "reducing response time by 60%. The "
    + "system would use natural language "
    + "processing to understand customer "
    + "queries and provide relevant responses "
    + "from our knowledge base."
  const SEED_DESCRIPTION_2 :=
    "Allow employees to choose their core "
    + "working hours between 10 AM - 3 PM, with "
    + "flexibility for start and end times to "
    + "improve work-life balance and "
    + "accommodate different personal schedules "
    + "and preferences."
  const SEED_DESCRIPTION_3 :=
    "Organize monthly 2-day hackathons where "
    + "teams can work on passion projects and "
    + "innovative solutions to company "
    + "challenges. This would foster creativity "
    + "and cross-team collaboration."
  const SEED_DESCRIPTION_4 :=
    "Create a structured mentorship program "
    + "pairing senior employees with junior "
    + "staff to accelerate professional "
    + "development and knowledge transfer "
    + "within the organization."
  const SEED_DESCRIPTION_5 :=
    "Implement a consistent dark mode theme "
    + "across all our internal applications to "
    + "reduce eye strain and improve user "
    + "experience, especially for developers "
    + "working long hours."
  const SEED_DESCRIPTION_6 :=
    "Integrate automated code analysis tools "
    + "to catch common issues before human "
    + "review, streamlining the development "
    + "process and maintaining code quality "
    + "standards."

  /** The seeded idea with id `n`, created a few days before `now`. */
  function SeedIdea(n: int, now: int): (r: Idea)
    requires 1 <= n <= 6
    ensures r.id == n
  {
    if n == 1 then
      Idea(1, "AI-Powered Customer Support Chat",
           SEED_DESCRIPTION_1,
           "product", Some(["ai", "customer-support", "automation"]), None, 1, now - 2 * DAY)
    else if n == 2 then
      Idea(2, "Flexible Work Hours Policy",
           SEED_DESCRIPTION_2,
           "process", Some(["work-life-balance", "policy", "flexibility"]), None, 2, now - 5 * DAY)
    else if n == 3 then
      Idea(3, "Monthly Innovation Hackathons",
           SEED_DESCRIPTION_3,
           "innovation", Some(["hackathon", "innovation", "collaboration"]), None, 3, now - 7 * DAY)
    else if n == 4 then
      Idea(4, "Employee Mentorship Program",
           SEED_DESCRIPTION_4,
           "culture", Some(["mentorship", "professional-development", "knowledge-transfer"]), None, 4, now - 3 * DAY)
    else if n == 5 then
      Idea(5, "Dark Mode for All Applications",
           SEED_DESCRIPTION_5,
           "product", Some(["dark-mode", "ux", "accessibility"]), None, 5, now - 4 * DAY)
    else
      Idea(6, "Automated Code Review System",
           SEED_DESCRIPTION_6,
           "process", Some(["automation", "code-review", "quality"]), None, 6, now - 6 * DAY)
  }

  /** The six seeded ideas, numbered from 1. */
  function SeedIdeas(now: int): (r: seq<Idea>)
    ensures |r| == 6 && forall j :: 0 <= j < 6 ==> r[j].id == j + 1
  {
    seq(6, j requires 0 <= j < 6 => SeedIdea(j + 1, now))
  }

  const SEED_VOTES: seq<InsertVote> := [
    InsertVote(1, 2, "up"), InsertVote(1, 3, "up"), InsertVote(1, 4, "up"),
    InsertVote(2, 1, "up"), InsertVote(2, 3, "up"), InsertVote(2, 5, "up"),
    InsertVote(3, 1, "up"), InsertVote(3, 2, "up"),
    InsertVote(4, 1, "up"), InsertVote(4, 2, "up"),
    InsertVote(5, 1, "up"), InsertVote(5, 2, "up"), InsertVote(5, 3, "up"),
    InsertVote(6, 1, "up"), InsertVote(6, 3, "up")
  ]

  /** The seeded users are numbered from 1 in their order. */
  lemma SeedUserIds()
    ensures forall j :: 0 <= j < |SEED_USERS| ==> SEED_USERS[j].id == j + 1
  {
  }

  /** Votes inserted in turn from an empty store, numbered from 1. */
  function NumberedVotes(seed: seq<InsertVote>): (r: seq<Vote>)
    ensures |r| == |seed|
  {
    seq(|seed|, j requires 0 <= j < |seed| => Vote(j + 1, seed[j].ideaId, seed[j].userId, seed[j].voteType))
  }

  /** No (idea, user) pair occurs twice. */
  predicate PairsDistinct(seed: seq<InsertVote>) {
    forall j, l :: 0 <= j < l < |seed| ==> (seed[j].ideaId, seed[j].userId) != (seed[l].ideaId, seed[l].userId)
  }

  /** `a` comes before `b` in (idea, user) order. */
  predicate Before(a: InsertVote, b: InsertVote) {
    a.ideaId < b.ideaId || (a.ideaId == b.ideaId && a.userId < b.userId)
  }

  /** In a sequence ascending step by step, every earlier pair comes before every
      later one. */
  lemma {:induction false} AscendingBefore(seed: seq<InsertVote>, j: int, l: int)
    requires forall k :: 0 <= k < |seed| - 1 ==> Before(seed[k], seed[k + 1])
    requires 0 <= j < l < |seed|
    ensures Before(seed[j], seed[l])
    decreases l - j
  {
    if l > j + 1 {
      AscendingBefore(seed, j, l - 1);
    }
  }

  /** The seeded votes are fifteen up votes on distinct pairs. */
  lemma SeedPairsDistinct()
    ensures PairsDistinct(SEED_VOTES) && |SEED_VOTES| == 15
    ensures forall j :: 0 <= j < |SEED_VOTES| ==> SEED_VOTES[j].voteType == "up"
  {
    assert forall k :: 0 <= k < |SEED_VOTES| - 1 ==> Before(SEED_VOTES[k], SEED_VOTES[k + 1]);
    forall j, l | 0 <= j < l < |SEED_VOTES|
      ensures (SEED_VOTES[j].ideaId, SEED_VOTES[j].userId) != (SEED_VOTES[l].ideaId, SEED_VOTES[l].userId)
    {
      AscendingBefore(SEED_VOTES, j, l);
    }
  }

  /** The first `i` votes of `seed` are stored, in order, numbered from 1. */
  predicate PlantedVotes(votes: OrderedMap<string, Vote>, seed: seq<InsertVote>, i: int) {
    && 0 <= i <= |seed| && votes.Valid() && |votes.keys| == i
    && forall j :: 0 <= j < i ==>
         && votes.keys[j] == VoteKey(seed[j].ideaId, seed[j].userId)
         && votes.entries[votes.keys[j]] == Vote(j + 1, seed[j].ideaId, seed[j].userId, seed[j].voteType)
  }

  /** The next vote of a seed with distinct pairs has a key not yet stored. */
  lemma PlantedFresh(votes: OrderedMap<string, Vote>, seed: seq<InsertVote>, i: int)
    requires PlantedVotes(votes, seed, i) && i < |seed| && PairsDistinct(seed)
    ensures VoteKey(seed[i].ideaId, seed[i].userId) !in votes.entries
  {
    var key := VoteKey(seed[i].ideaId, seed[i].userId);
    forall j | 0 <= j < i ensures votes.keys[j] != key {
      if votes.keys[j] == key {
        VoteKeyInjective(seed[j].ideaId, seed[j].userId, seed[i].ideaId, seed[i].userId);
      }
    }
  }

  /** Storing the next vote of a seed with distinct pairs appends its key. */
  lemma PlantedStep(votes: OrderedMap<string, Vote>, seed: seq<InsertVote>, i: int)
    requires PlantedVotes(votes, seed, i) && i < |seed| && PairsDistinct(seed)
    ensures var v := seed[i];
      PlantedVotes(votes.Set(VoteKey(v.ideaId, v.userId), Vote(i + 1, v.ideaId, v.userId, v.voteType)), seed, i + 1)
  {
    var v := seed[i];
    var key := VoteKey(v.ideaId, v.userId);
    var vote := Vote(i + 1, v.ideaId, v.userId, v.voteType);
    PlantedFresh(votes, seed, i);
    var m := votes.Set(key, vote);
    assert m.keys == votes.keys + [key] && m.entries == votes.entries[key := vote];
    forall j | 0 <= j < i + 1
      ensures m.keys[j] == VoteKey(seed[j].ideaId, seed[j].userId)
      ensures m.entries[m.keys[j]] == Vote(j + 1, seed[j].ideaId, seed[j].userId, seed[j].voteType)
    {
      if j < i {
        assert m.keys[j] == votes.keys[j] != key;
      }
    }
  }

  /** A planted store is keyed by its pairs, with ids below the next one. */
  lemma PlantedKeyed(votes: OrderedMap<string, Vote>, seed: seq<InsertVote>, i: int)
    requires PlantedVotes(votes, seed, i)
    ensures VotesKeyed(votes, i + 1)
    ensures i == |seed| ==> votes.Values() == NumberedVotes(seed)
  {
    forall k | k in votes.entries
      ensures k == VoteKey(votes.entries[k].ideaId, votes.entries[k].userId) && votes.entries[k].id < i + 1
    {
      var j :| 0 <= j < |votes.keys| && votes.keys[j] == k;
    }
  }

  function SeedComment(n: int, now: int): (r: Comment)
    requires 1 <= n <= 2
    ensures r.id == n
  {
    if n == 1 then
      Comment(1, 1, 2, "This is a great idea! We've been struggling with support response times. Have you considered which AI platform to use?", now - DAY)
    else
      Comment(2, 1, 3, "I love the seamless handoff feature. This would definitely improve customer experience.", now - 12 * 60 * 60 * 1000)
  }

  /** The two seeded comments, numbered from 1. */
  function SeedComments(now: int): (r: seq<Comment>)
    ensures |r| == 2 && forall j :: 0 <= j < 2 ==> r[j].id == j + 1
  {
    seq(2, j requires 0 <= j < 2 => SeedComment(j + 1, now))
  }

  // ---------------------------------------------------------------------------
  // The store.

  class MemStorage {
    var users: OrderedMap<int, User>
    var ideas: OrderedMap<int, Idea>
    var votes: OrderedMap<string, Vote>
    var comments: OrderedMap<int, Comment>
    var currentUserId: int
    var currentIdeaId: int
    var currentVoteId: int
    var currentCommentId: int

    predicate Valid()
      reads this
    {
      && UsersKeyed(users, currentUserId)
      && IdeasKeyed(ideas, currentIdeaId)
      && VotesKeyed(votes, currentVoteId)
      && CommentsKeyed(comments, currentCommentId)
    }

    /** The constructor with `seedData`: seven users, six ideas, fifteen up votes and two
        comments, in the order the source inserts them, the counters set past the seeded
        ids. */
    constructor(now: int)
      ensures Valid()
      ensures users.Values() == SEED_USERS && ideas.Values() == SeedIdeas(now)
      ensures comments.Values() == SeedComments(now) && votes.Values() == NumberedVotes(SEED_VOTES)
      ensures currentUserId == 8 && currentIdeaId == 7 && currentVoteId == 16 && currentCommentId == 3
    {
      users := Empty();
      ideas := Empty();
      votes := Empty();
      comments := Empty();
      currentUserId := 1;
      currentIdeaId := 1;
      currentVoteId := 1;
      currentCommentId := 1;
      new;
      SeedUserIds();
      PlantUsers(SEED_USERS);
      PlantIdeas(SeedIdeas(now));
      PlantComments(SeedComments(now));
      SeedPairsDistinct();
      PlantVotes(SEED_VOTES);
    }

    /** Stores the seeded users, numbered from 1, under their ids. */
    method PlantUsers(seed: seq<User>)
      requires users == Empty()
      requires forall j :: 0 <= j < |seed| ==> seed[j].id == j + 1
      modifies this`users, this`currentUserId
      ensures UsersKeyed(users, currentUserId) && currentUserId == |seed| + 1
      ensures users.Values() == seed
    {
      var i := 0;
      while i < |seed|
        invariant 0 <= i <= |seed|
        invariant users.Valid() && |users.keys| == i
        invariant forall j :: 0 <= j < i ==> users.keys[j] == j + 1 && users.entries[j + 1] == seed[j]
      {
        users := users.Set(seed[i].id, seed[i]);
        i := i + 1;
      }
      currentUserId := |seed| + 1;
    }

    /** Stores the seeded ideas, numbered from 1, under their ids. */
    method PlantIdeas(seed: seq<Idea>)
      requires ideas == Empty()
      requires forall j :: 0 <= j < |seed| ==> seed[j].id == j + 1
      modifies this`ideas, this`currentIdeaId
      ensures IdeasKeyed(ideas, currentIdeaId) && currentIdeaId == |seed| + 1
      ensures ideas.Values() == seed
    {
      var i := 0;
      while i < |seed|
        invariant 0 <= i <= |seed|
        invariant ideas.Valid() && |ideas.keys| == i
        invariant forall j :: 0 <= j < i ==> ideas.keys[j] == j + 1 && ideas.entries[j + 1] == seed[j]
      {
        ideas := ideas.Set(seed[i].id, seed[i]);
        i := i + 1;
      }
      currentIdeaId := |seed| + 1;
    }

    /** Stores the seeded comments, numbered from 1, under their ids. */
    method PlantComments(seed: seq<Comment>)
      requires comments == Empty()
      requires forall j :: 0 <= j < |seed| ==> seed[j].id == j + 1
      modifies this`comments, this`currentCommentId
      ensures CommentsKeyed(comments, currentCommentId) && currentCommentId == |seed| + 1
      ensures comments.Values() == seed
    {
      var i := 0;
      while i < |seed|
        invariant 0 <= i <= |seed|
        invariant comments.Valid() && |comments.keys| == i
        invariant forall j :: 0 <= j < i ==> comments.keys[j] == j + 1 && comments.entries[j + 1] == seed[j]
      {
        comments := comments.Set(seed[i].id, seed[i]);
        i := i + 1;
      }
      currentCommentId := |seed| + 1;
    }

    /** Inserts the seeded votes in turn, each under its pair's key with the next id. */
    method PlantVotes(seed: seq<InsertVote>)
      requires votes == Empty() && currentVoteId == 1 && PairsDistinct(seed)
      modifies this`votes, this`currentVoteId
      ensures VotesKeyed(votes, currentVoteId) && currentVoteId == |seed| + 1
      ensures votes.Values() == NumberedVotes(seed)
    {
      var i := 0;
      while i < |seed|
        invariant currentVoteId == i + 1 && PlantedVotes(votes, seed, i)
      {
        var v := seed[i];
        PlantedStep(votes, seed, i);
        votes := votes.Set(VoteKey(v.ideaId, v.userId), Vote(currentVoteId, v.ideaId, v.userId, v.voteType));
        currentVoteId := currentVoteId + 1;
        i := i + 1;
      }
      PlantedKeyed(votes, seed, i);
    }

    /** `getUser`. */
    method GetUser(id: int) returns (r: Option<User>)
      requires Valid()
      ensures r.Some? <==> id in users.entries
      ensures r.Some? ==> r.value == users.entries[id] && r.value.id == id
    {
      r := users.Get(id);
    }

    /** `getUserByUsername`. */
    method GetUserByUsername(username: string) returns (r: Option<User>)
      requires Valid()
      ensures r == FindByUsername(users.Values(), username)
    {
      r := FindByUsername(users.Values(), username);
    }

    /** `createUser`: the next user id, then the counter moves on. */
    method CreateUser(insertUser: InsertUser) returns (user: User)
      requires Valid()
      modifies this`users, this`currentUserId
      ensures Valid()
      ensures user == User(old(currentUserId), insertUser.username, insertUser.password, insertUser.avatar, insertUser.role)
      ensures user.id !in old(users.entries)
      ensures currentUserId == old(currentUserId) + 1
      ensures users == old(users).Set(user.id, user)
    {
      var id := currentUserId;
      currentUserId := currentUserId + 1;
      user := User(id, insertUser.username, insertUser.password, insertUser.avatar, insertUser.role);
      users := users.Set(id, user);
    }

    /** `getIdeaVotes`. */
    method GetIdeaVotes(ideaId: int) returns (upvotes: nat, downvotes: nat)
      requires Valid()
      ensures (upvotes, downvotes) == Tally(votes.Values(), ideaId)
    {
      var on := Filter(votes.Values(), VoteOn(ideaId));
      upvotes := |Filter(on, OfType("up"))|;
      downvotes := |Filter(on, OfType("down"))|;
    }

    /** `getIdeaComments`: the comments on the idea whose author exists, oldest first. */
    method GetIdeaComments(ideaId: int) returns (r: seq<CommentWithAuthor>)
      requires Valid()
      ensures r == IdeaComments(comments.Values(), users.entries, ideaId)
    {
      var on := Filter(comments.Values(), CommentOn(ideaId));
      var withAuthor := [];
      var i := 0;
      while i < |on|
        invariant 0 <= i <= |on|
        invariant withAuthor == WithAuthors(on[..i], users.entries)
      {
        var comment := on[i];
        assert on[..i + 1][..i] == on[..i];
        var author := GetUser(comment.userId);
        if author.Some? {
          withAuthor := withAuthor + [CommentWithAuthor(comment, author.value)];
        }
        i := i + 1;
      }
      assert on[..i] == on;
      r := SortDesc(withAuthor, CommentAge);
    }

    /** `getIdeas`: filter by category, build the entries of the ideas whose author
        exists, then sort. */
    method GetIdeas(category: Option<string>, sortBy: Option<string>) returns (r: seq<IdeaWithDetails>)
      requires Valid()
      ensures r == IdeaListing(ideas.Values(), users.entries, votes.Values(), comments.Values(), category, sortBy)
    {
      var selected := CategoryFilter(ideas.Values(), category);
      var listed := DetailEach(selected);
      r := SortDesc(listed, SortKey(sortBy));
    }

    /** The loop of `getIdeas`: one entry for each idea whose author exists. */
    method DetailEach(selected: seq<Idea>) returns (listed: seq<IdeaWithDetails>)
      requires Valid()
      ensures listed == Details(selected, users.entries, votes.Values(), comments.Values())
    {
      listed := [];
      var i := 0;
      while i < |selected|
        invariant 0 <= i <= |selected|
        invariant listed == Details(selected[..i], users.entries, votes.Values(), comments.Values())
      {
        var idea := selected[i];
        DetailsPrefix(selected, i, users.entries, votes.Values(), comments.Values());
        var author := GetUser(idea.authorId);
        if author.Some? {
          var upvotes, downvotes := GetIdeaVotes(idea.id);
          var onIdea := GetIdeaComments(idea.id);
          listed := listed + [IdeaWithDetails(idea, author.value, upvotes, downvotes, |onIdea|)];
        }
        i := i + 1;
      }
      assert selected[..i] == selected;
    }

    /** `getIdea`: undefined for a missing idea or a missing author. */
    method GetIdea(id: int) returns (r: Option<IdeaWithDetails>)
      requires Valid()
      ensures id !in ideas.entries ==> r.None?
      ensures id in ideas.entries ==> r == Detail(ideas.entries[id], users.entries, votes.Values(), comments.Values())
    {
      var idea := ideas.Get(id);
      if idea.None? {
        return None;
      }
      var author := GetUser(idea.value.authorId);
      if author.None? {
        return None;
      }
      var upvotes, downvotes := GetIdeaVotes(id);
      var onIdea := GetIdeaComments(id);
      r := Some(IdeaWithDetails(idea.value, author.value, upvotes, downvotes, |onIdea|));
    }

    /** `createIdea`: the next idea id, created now. */
    method CreateIdea(insertIdea: InsertIdea, now: int) returns (idea: Idea)
      requires Valid()
      modifies this`ideas, this`currentIdeaId
      ensures Valid()
      ensures idea == Idea(old(currentIdeaId), insertIdea.title, insertIdea.description, insertIdea.category,
                           insertIdea.tags, insertIdea.images, insertIdea.authorId, now)
      ensures idea.id !in old(ideas.entries)
      ensures currentIdeaId == old(currentIdeaId) + 1
      ensures ideas == old(ideas).Set(idea.id, idea)
    {
      var id := currentIdeaId;
      currentIdeaId := currentIdeaId + 1;
      idea := Idea(id, insertIdea.title, insertIdea.description, insertIdea.category,
                   insertIdea.tags, insertIdea.images, insertIdea.authorId, now);
      ideas := ideas.Set(id, idea);
    }

    /** `updateIdea`: undefined and no change for a missing idea. */
    method UpdateIdea(id: int, updateData: IdeaUpdate) returns (r: Option<Idea>)
      requires Valid()
      modifies this`ideas
      ensures Valid()
      ensures id !in old(ideas.entries) ==> r.None? && ideas == old(ideas)
      ensures id in old(ideas.entries) ==>
        && r == Some(MergeIdea(old(ideas.entries[id]), updateData))
        && r.value.id == id
        && ideas == old(ideas).Set(id, r.value)
    {
      var idea := ideas.Get(id);
      if idea.None? {
        return None;
      }
      var updated := MergeIdea(idea.value, updateData);
      ideas := ideas.Set(id, updated);
      r := Some(updated);
    }

    /** `deleteIdea`: whether there was one. The idea's votes and comments stay. */
    method DeleteIdea(id: int) returns (deleted: bool)
      requires Valid()
      modifies this`ideas
      ensures Valid()
      ensures deleted <==> id in old(ideas.entries)
      ensures ideas == old(ideas).Delete(id)
    {
      deleted := ideas.Has(id);
      ideas := ideas.Delete(id);
    }

    /** `getUserVote`. */
    method GetUserVote(ideaId: int, userId: int) returns (r: Option<Vote>)
      requires Valid()
      ensures r.Some? <==> VoteKey(ideaId, userId) in votes.entries
      ensures r.Some? ==> r.value == votes.entries[VoteKey(ideaId, userId)]
      ensures r.Some? ==> r.value.ideaId == ideaId && r.value.userId == userId
    {
      r := votes.Get(VoteKey(ideaId, userId));
      if r.Some? {
        VoteUnderItsKey(votes, currentVoteId, ideaId, userId);
      }
    }

    /** `createOrUpdateVote`. */
    method CreateOrUpdateVote(insertVote: InsertVote) returns (vote: Vote)
      requires Valid()
      modifies this`votes, this`currentVoteId
      ensures Valid()
      ensures (votes, currentVoteId, vote) == Upserted(old(votes), old(currentVoteId), insertVote)
    {
      ghost var r := Upserted(votes, currentVoteId, insertVote);
      UpsertedFacts(votes, currentVoteId, insertVote);
      var key := VoteKey(insertVote.ideaId, insertVote.userId);
      var existing := votes.Get(key);
      if existing.Some? {
        vote := existing.value.(voteType := insertVote.voteType);
      } else {
        var id := currentVoteId;
        currentVoteId := currentVoteId + 1;
        vote := Vote(id, insertVote.ideaId, insertVote.userId, insertVote.voteType);
      }
      assert vote == r.2 && currentVoteId == r.1;
      votes := votes.Set(key, vote);
    }

    /** `deleteVote`: whether there was one. */
    method DeleteVote(ideaId: int, userId: int) returns (deleted: bool)
      requires Valid()
      modifies this`votes
      ensures Valid()
      ensures deleted <==> VoteKey(ideaId, userId) in old(votes.entries)
      ensures votes == old(votes).Delete(VoteKey(ideaId, userId))
    {
      DeleteVoteKeeps(votes, currentVoteId, ideaId, userId);
      var key := VoteKey(ideaId, userId);
      deleted := votes.Has(key);
      votes := votes.Delete(key);
    }

    /** `createComment`: the next comment id, created now. */
    method CreateComment(insertComment: InsertComment, now: int) returns (comment: Comment)
      requires Valid()
      modifies this`comments, this`currentCommentId
      ensures Valid()
      ensures comment == Comment(old(currentCommentId), insertComment.ideaId, insertComment.userId, insertComment.content, now)
      ensures comment.id !in old(comments.entries)
      ensures currentCommentId == old(currentCommentId) + 1
      ensures comments == old(comments).Set(comment.id, comment)
    {
      var id := currentCommentId;
      currentCommentId := currentCommentId + 1;
      comment := Comment(id, insertComment.ideaId, insertComment.userId, insertComment.content, now);
      comments := comments.Set(id, comment);
    }

    /** `deleteComment`: whether there was one. */
    method DeleteComment(id: int) returns (deleted: bool)
      requires Valid()
      modifies this`comments
      ensures Valid()
      ensures deleted <==> id in old(comments.entries)
      ensures comments == old(comments).Delete(id)
    {
      deleted := comments.Has(id);
      comments := comments.Delete(id);
    }

    /** `getStats`: the sizes of the idea, vote and user maps. */
    method GetStats() returns (r: Stats)
      requires Valid()
      ensures r == Stats(|ideas.entries|, |votes.entries|, |users.entries|)
    {
      r := Stats(ideas.Size(), votes.Size(), users.Size());
    }
  }
}
