/**
 * The domain records of the review site, their field validators, and the
 * record store that keeps the schema's constraints: unique slugs, usernames and
 * e-mails, one review per (author, title), references that resolve, and the
 * delete policies (SET_NULL for a title's category, CASCADE for reviews and
 * comments).
 *
 * The store admits only rows that pass the model's field validators, with one
 * exception: it admits blank review and comment text, which the text fields
 * refuse when a serializer validates them. Django does not run the validators
 * when a row is saved, only when a form or a serializer that inherits them
 * validates input; the sign-up serializer declares its own username and e-mail
 * fields without the model's pattern and length limit, so the running system
 * can hold users this store refuses.
 */
module Models {
  import opened Wrappers

  // Field limits.
  const USER_NAME_LENGTH: nat := 150
  const EMAIL_LENGTH: nat := 254
  const NAME_LENGTH: nat := 256
  const SLUG_LENGTH: nat := 50
  const ROLE_LENGTH: nat := 9
  const MIN_SCORE: int := 1
  const MAX_SCORE: int := 10

  /** Primary keys. */
  type Id = nat

  // ---------------------------------------------------------------------------
  // Roles
  // ---------------------------------------------------------------------------

  datatype Role = UserRole | ModeratorRole | AdminRole {
    /** The value stored in the `role` column. */
    function Value(): string {
      match this
      case UserRole => "user"
      case ModeratorRole => "moderator"
      case AdminRole => "admin"
    }
  }

  const DEFAULT_ROLE: Role := UserRole

  /** Reads a stored `role` value back; only the three choices are roles. */
  function RoleFromValue(s: string): (r: Option<Role>)
    ensures r.Some? ==> r.value.Value() == s
    ensures r.None? ==> forall role: Role :: role.Value() != s
  {
    if s == "user" then Some(UserRole)
    else if s == "moderator" then Some(ModeratorRole)
    else if s == "admin" then Some(AdminRole)
    else None
  }

  lemma RoleValueRoundTrip(role: Role)
    ensures RoleFromValue(role.Value()) == Some(role)
    ensures 0 < |role.Value()| <= ROLE_LENGTH
  {
  }

  // ---------------------------------------------------------------------------
  // Field validators
  // ---------------------------------------------------------------------------

  predicate IsSlugChar(c: char) {
    c == '-' || c == '_' || 'a' <= c <= 'z' || 'A' <= c <= 'Z' || '0' <= c <= '9'
  }

  predicate AllSlugChars(s: string) {
    forall i | 0 <= i < |s| :: IsSlugChar(s[i])
  }

  /**
   * The declared pattern `^[-a-zA-Z0-9_]+$` as a regex search reads it: `$`
   * also matches just before a final newline.
   */
  predicate SlugPatternMatches(s: string) {
    || (|s| > 0 && AllSlugChars(s))
    || (|s| > 1 && s[|s| - 1] == '\n' && AllSlugChars(s[..|s| - 1]))
  }

  /** The slug field's built-in validator, anchored at the very end (`\Z`). */
  predicate BuiltinSlugMatches(s: string) {
    |s| > 0 && AllSlugChars(s)
  }

  /** Every validator on a Category or Genre slug. */
  predicate ValidSlug(s: string) {
    |s| <= SLUG_LENGTH && SlugPatternMatches(s) && BuiltinSlugMatches(s)
  }

  /** Together the validators accept exactly the non-empty slug words of at most 50 characters. */
  lemma ValidSlugIsExact(s: string)
    ensures ValidSlug(s) <==> 0 < |s| <= SLUG_LENGTH && AllSlugChars(s)
  {
  }

  /** The declared pattern alone would let a final newline through. */
  lemma SlugPatternAdmitsFinalNewline()
    ensures SlugPatternMatches("drama\n") && !ValidSlug("drama\n")
  {
    assert !IsSlugChar("drama\n"[5]);
  }

  /** `\w` restricted to ASCII. */
  predicate IsWordChar(c: char) {
    'a' <= c <= 'z' || 'A' <= c <= 'Z' || '0' <= c <= '9' || c == '_'
  }

  predicate IsUsernameChar(c: char) {
    IsWordChar(c) || c == '.' || c == '@' || c == '+' || c == '-'
  }

  /** `^[\w.@+-]+\Z` and the 150-character limit. */
  predicate ValidUsername(s: string) {
    0 < |s| <= USER_NAME_LENGTH && forall i | 0 <= i < |s| :: IsUsernameChar(s[i])
  }

  predicate ValidEmail(s: string) {
    0 < |s| <= EMAIL_LENGTH
  }

  predicate ValidName(s: string) {
    0 < |s| <= NAME_LENGTH
  }

  predicate ValidScore(score: int) {
    MIN_SCORE <= score <= MAX_SCORE
  }

  predicate ValidYear(year: int, currentYear: int) {
    0 <= year <= currentYear
  }

  predicate ValidRating(rating: Option<int>) {
    rating.Some? ==> MIN_SCORE <= rating.value <= MAX_SCORE
  }

  // ---------------------------------------------------------------------------
  // Records
  // ---------------------------------------------------------------------------

  datatype User = User(username: string, email: string, role: Role, isSuperuser: bool)

  /** Category and Genre rows have the same shape: a name and a unique slug. */
  datatype Tag = Tag(name: string, slug: string)
  type Category = Tag
  type Genre = Tag

  datatype Title = Title(
    name: string,
    year: int,
    rating: Option<int>,
    description: Option<string>,
    category: Option<Id>,
    genres: set<Id>)

  datatype Review = Review(id: Id, text: string, score: int, author: Id, title: Id)

  datatype Comment = Comment(id: Id, text: string, author: Id, review: Id)

  predicate ValidUser(u: User) {
    ValidUsername(u.username) && ValidEmail(u.email)
  }

  predicate ValidTag(t: Tag) {
    ValidName(t.name) && ValidSlug(t.slug)
  }

  predicate ValidTitle(t: Title, currentYear: int) {
    ValidName(t.name) && ValidYear(t.year, currentYear) && ValidRating(t.rating)
  }

  // ---------------------------------------------------------------------------
  // Sequences of rows
  // ---------------------------------------------------------------------------

  /** The rows of `s` that `keep` accepts, in their order. */
  function Filter<T(!new)>(s: seq<T>, keep: T -> bool): (r: seq<T>)
    ensures |r| <= |s|
    ensures forall x :: x in r <==> x in s && keep(x)
  {
    if s == [] then []
    else if keep(s[0]) then [s[0]] + Filter(s[1..], keep)
    else Filter(s[1..], keep)
  }

  /** No two rows of `s` share a key. */
  ghost predicate PairwiseDistinct<T, K>(s: seq<T>, key: T -> K) {
    forall i, j | 0 <= i < j < |s| :: key(s[i]) != key(s[j])
  }

  lemma {:induction false} FilterKeepsDistinct<T(!new), K>(s: seq<T>, keep: T -> bool, key: T -> K)
    requires PairwiseDistinct(s, key)
    ensures PairwiseDistinct(Filter(s, keep), key)
  {
    if s != [] {
      FilterKeepsDistinct(s[1..], keep, key);
      var rest := Filter(s[1..], keep);
      if keep(s[0]) {
        forall j | 0 <= j < |rest|
          ensures key(s[0]) != key(rest[j])
        {
          assert rest[j] in s[1..];
          var k :| 0 <= k < |s[1..]| && s[1..][k] == rest[j];
          assert s[k + 1] == rest[j];
        }
        var r := [s[0]] + rest;
        forall i, j | 0 <= i < j < |r|
          ensures key(r[i]) != key(r[j])
        {
          if i == 0 {
            assert r[j] == rest[j - 1];
          } else {
            assert r[i] == rest[i - 1] && r[j] == rest[j - 1];
          }
        }
      }
    }
  }

  lemma DistinctAppend<T, K>(s: seq<T>, x: T, key: T -> K)
    requires PairwiseDistinct(s, key)
    requires forall y | y in s :: key(y) != key(x)
    ensures PairwiseDistinct(s + [x], key)
  {
    var r := s + [x];
    forall i, j | 0 <= i < j < |r|
      ensures key(r[i]) != key(r[j])
    {
      if j == |s| {
        assert r[i] in s;
      } else {
        assert r[i] == s[i] && r[j] == s[j];
      }
    }
  }

  function ReviewKey(r: Review): Id { r.id }
  function AuthorTitle(r: Review): (Id, Id) { (r.author, r.title) }
  function CommentKey(c: Comment): Id { c.id }

  function ReviewIds(reviews: seq<Review>): set<Id> {
    set r | r in reviews :: r.id
  }

  predicate HasReviewBy(reviews: seq<Review>, author: Id, title: Id) {
    exists r | r in reviews :: r.author == author && r.title == title
  }

  /** The scores of the title's reviews, in row order. */
  function ScoresOf(reviews: seq<Review>, title: Id): seq<int> {
    if reviews == [] then []
    else (if reviews[0].title == title then [reviews[0].score] else []) + ScoresOf(reviews[1..], title)
  }

  lemma {:induction false} ScoresOfAppend(reviews: seq<Review>, r: Review, title: Id)
    ensures ScoresOf(reviews + [r], title)
         == ScoresOf(reviews, title) + (if r.title == title then [r.score] else [])
  {
    if reviews == [] {
      assert reviews + [r] == [r];
    } else {
      var all := reviews + [r];
      var head := if reviews[0].title == title then [reviews[0].score] else [];
      var last := if r.title == title then [r.score] else [];
      assert all[0] == reviews[0];
      assert all[1..] == reviews[1..] + [r];
      ScoresOfAppend(reviews[1..], r, title);
      assert ScoresOf(all, title) == head + (ScoresOf(reviews[1..], title) + last);
      assert head + (ScoresOf(reviews[1..], title) + last) == (head + ScoresOf(reviews[1..], title)) + last;
    }
  }

  /** A title has no scores exactly when it has no reviews. */
  lemma {:induction false} ScoresOfEmpty(reviews: seq<Review>, title: Id)
    ensures ScoresOf(reviews, title) == [] <==> forall r | r in reviews :: r.title != title
  {
    if reviews != [] {
      ScoresOfEmpty(reviews[1..], title);
      assert forall r | r in reviews :: r == reviews[0] || r in reviews[1..];
    }
  }

  lemma {:induction false} ScoresOfValid(reviews: seq<Review>, title: Id)
    requires forall r | r in reviews :: ValidScore(r.score)
    ensures forall x | x in ScoresOf(reviews, title) :: ValidScore(x)
  {
    if reviews != [] {
      ScoresOfValid(reviews[1..], title);
    }
  }

  /** The scores of the title are the same before and after removing rows of other titles. */
  lemma {:induction false} ScoresOfOtherRowsRemoved(reviews: seq<Review>, keep: Review -> bool, title: Id)
    requires forall r | r in reviews && r.title == title :: keep(r)
    ensures ScoresOf(Filter(reviews, keep), title) == ScoresOf(reviews, title)
  {
    if reviews != [] {
      ScoresOfOtherRowsRemoved(reviews[1..], keep, title);
      if keep(reviews[0]) {
        var rest := Filter(reviews[1..], keep);
        assert ([reviews[0]] + rest)[0] == reviews[0];
        assert ([reviews[0]] + rest)[1..] == rest;
      }
    }
  }

  // ---------------------------------------------------------------------------
  // The rating: the mean of the scores, or null without scores
  // ---------------------------------------------------------------------------

  function Sum(xs: seq<int>): int {
    if xs == [] then 0 else xs[0] + Sum(xs[1..])
  }

  /** Python's `int()` applied to a quotient: the fraction is dropped, rounding toward zero. */
  function TruncDiv(a: int, n: int): (q: int)
    requires n > 0
    ensures a >= 0 ==> q * n <= a < (q + 1) * n
    ensures a < 0 ==> (q - 1) * n < a <= q * n
  {
    if a >= 0 then a / n else -((-a) / n)
  }

  /**
   * The rating a title is saved with: the average score, stored in an integer
   * column, so the fraction is dropped; null when there are no scores.
   */
  function Mean(xs: seq<int>): (r: Option<int>)
    ensures r.None? <==> xs == []
    ensures r.Some? && Sum(xs) >= 0 ==> r.value * |xs| <= Sum(xs) < (r.value + 1) * |xs|
  {
    if xs == [] then None else Some(TruncDiv(Sum(xs), |xs|))
  }

  lemma {:induction false} SumBounds(xs: seq<int>)
    requires forall x | x in xs :: ValidScore(x)
    ensures MIN_SCORE * |xs| <= Sum(xs) <= MAX_SCORE * |xs|
  {
    if xs != [] {
      assert xs[0] in xs;
      SumBounds(xs[1..]);
    }
  }

  /** The stored mean of valid scores is itself a valid rating (1..10). */
  lemma MeanIsValidRating(xs: seq<int>)
    requires forall x | x in xs :: ValidScore(x)
    ensures ValidRating(Mean(xs))
  {
    if xs != [] {
      SumBounds(xs);
    }
  }

  /** The two-review example: scores 8 and 4 give 6, while 8 and 5 give 6 as well, the half being dropped. */
  lemma MeanDropsTheFraction()
    ensures Mean([8]) == Some(8)
    ensures Mean([8, 4]) == Some(6)
    ensures Mean([8, 5]) == Some(6)
  {
    assert Sum([8, 4]) == 8 + Sum([4]);
    assert Sum([8, 5]) == 8 + Sum([5]);
  }

  // ---------------------------------------------------------------------------
  // Store invariants
  // ---------------------------------------------------------------------------

  ghost predicate UsersValid(users: map<Id, User>) {
    && (forall u | u in users :: ValidUser(users[u]))
    && (forall u, v | u in users && v in users && u != v :: users[u].username != users[v].username)
    && (forall u, v | u in users && v in users && u != v :: users[u].email != users[v].email)
  }

  ghost predicate TagsValid(tags: map<Id, Tag>) {
    && (forall k | k in tags :: ValidTag(tags[k]))
    && (forall k, l | k in tags && l in tags && k != l :: tags[k].slug != tags[l].slug)
  }

  predicate TitleRefsResolve(t: Title, categories: map<Id, Category>, genres: map<Id, Genre>) {
    (t.category.Some? ==> t.category.value in categories) && t.genres <= genres.Keys
  }

  ghost predicate TitlesValid(titles: map<Id, Title>, categories: map<Id, Category>, genres: map<Id, Genre>, currentYear: int) {
    forall t | t in titles :: ValidTitle(titles[t], currentYear) && TitleRefsResolve(titles[t], categories, genres)
  }

  /** Review rows: valid scores, resolving references, unique ids, one review per (author, title). */
  ghost predicate ReviewsValid(reviews: seq<Review>, users: map<Id, User>, titles: map<Id, Title>) {
    && (forall r | r in reviews :: ValidScore(r.score) && r.author in users && r.title in titles)
    && PairwiseDistinct(reviews, ReviewKey)
    && PairwiseDistinct(reviews, AuthorTitle)
  }

  ghost predicate CommentsValid(comments: seq<Comment>, users: map<Id, User>, reviews: seq<Review>) {
    && (forall c | c in comments :: c.author in users && c.review in ReviewIds(reviews))
    && PairwiseDistinct(comments, CommentKey)
  }

  ghost predicate KeysBelow<V>(m: map<Id, V>, bound: nat) {
    forall k | k in m :: k < bound
  }

  /** A store never holds two reviews by one author of one title. */
  lemma OneReviewPerAuthorAndTitle(reviews: seq<Review>, users: map<Id, User>, titles: map<Id, Title>, i: nat, j: nat)
    requires ReviewsValid(reviews, users, titles)
    requires i < |reviews| && j < |reviews| && i != j
    ensures reviews[i].author != reviews[j].author || reviews[i].title != reviews[j].title
  {
    if i < j {
      assert AuthorTitle(reviews[i]) != AuthorTitle(reviews[j]);
    } else {
      assert AuthorTitle(reviews[j]) != AuthorTitle(reviews[i]);
    }
  }

  /** Editing rows in place without touching ids, authors or titles keeps them valid. */
  lemma EditKeepsReviewsValid(reviews: seq<Review>, users: map<Id, User>, titles: map<Id, Title>, edited: seq<Review>)
    requires ReviewsValid(reviews, users, titles)
    requires |edited| == |reviews|
    requires forall i | 0 <= i < |reviews| ::
      edited[i].id == reviews[i].id && edited[i].author == reviews[i].author && edited[i].title == reviews[i].title
    requires forall i | 0 <= i < |edited| :: ValidScore(edited[i].score)
    ensures ReviewsValid(edited, users, titles)
    ensures ReviewIds(edited) == ReviewIds(reviews)
  {
    forall x | x in edited
      ensures ValidScore(x.score) && x.author in users && x.title in titles
    {
      var i :| 0 <= i < |edited| && edited[i] == x;
      assert reviews[i] in reviews;
    }
    forall i, j | 0 <= i < j < |edited|
      ensures ReviewKey(edited[i]) != ReviewKey(edited[j]) && AuthorTitle(edited[i]) != AuthorTitle(edited[j])
    {
      assert ReviewKey(reviews[i]) != ReviewKey(reviews[j]);
      assert AuthorTitle(reviews[i]) != AuthorTitle(reviews[j]);
    }
    forall x | x in ReviewIds(reviews)
      ensures x in ReviewIds(edited)
    {
      var rv :| rv in reviews && rv.id == x;
      var i :| 0 <= i < |reviews| && reviews[i] == rv;
      assert edited[i] in edited;
    }
    forall x | x in ReviewIds(edited)
      ensures x in ReviewIds(reviews)
    {
      var rv :| rv in edited && rv.id == x;
      var i :| 0 <= i < |edited| && edited[i] == rv;
      assert reviews[i] in reviews;
    }
  }

  /** Every primary key in the tables is below the next one to be handed out. */
  ghost predicate IdsBelow(
    users: map<Id, User>, categories: map<Id, Category>, genres: map<Id, Genre>, titles: map<Id, Title>,
    reviews: seq<Review>, comments: seq<Comment>, nextId: nat)
  {
    && KeysBelow(users, nextId) && KeysBelow(categories, nextId) && KeysBelow(genres, nextId)
    && KeysBelow(titles, nextId)
    && (forall r | r in reviews :: r.id < nextId)
    && (forall c | c in comments :: c.id < nextId)
  }

  /** The invariant of the store's tables. */
  ghost predicate TablesValid(
    users: map<Id, User>, categories: map<Id, Category>, genres: map<Id, Genre>, titles: map<Id, Title>,
    reviews: seq<Review>, comments: seq<Comment>, currentYear: int, nextId: nat)
  {
    && UsersValid(users)
    && TagsValid(categories)
    && TagsValid(genres)
    && TitlesValid(titles, categories, genres, currentYear)
    && ReviewsValid(reviews, users, titles)
    && CommentsValid(comments, users, reviews)
    && IdsBelow(users, categories, genres, titles, reviews, comments, nextId)
  }

  /** The review rows after a partial update of the row `id`: text and score change when given. */
  function EditReview(reviews: seq<Review>, id: Id, text: Option<string>, score: Option<int>): (r: seq<Review>)
    ensures |r| == |reviews|
    ensures forall i | 0 <= i < |reviews| ::
      r[i] == if reviews[i].id == id
        then reviews[i].(text := text.GetOr(reviews[i].text), score := score.GetOr(reviews[i].score))
        else reviews[i]
  {
    seq(|reviews|, i requires 0 <= i < |reviews| =>
      if reviews[i].id == id
      then reviews[i].(text := text.GetOr(reviews[i].text), score := score.GetOr(reviews[i].score))
      else reviews[i])
  }

  /** A partial update with a valid score keeps the tables valid and the set of review ids. */
  lemma EditReviewKeepsTablesValid(
    users: map<Id, User>, categories: map<Id, Category>, genres: map<Id, Genre>, titles: map<Id, Title>,
    reviews: seq<Review>, comments: seq<Comment>, currentYear: int, nextId: nat,
    id: Id, text: Option<string>, score: Option<int>)
    requires TablesValid(users, categories, genres, titles, reviews, comments, currentYear, nextId)
    requires score.Some? ==> ValidScore(score.value)
    ensures TablesValid(users, categories, genres, titles, EditReview(reviews, id, text, score), comments, currentYear, nextId)
    ensures ReviewIds(EditReview(reviews, id, text, score)) == ReviewIds(reviews)
  {
    var edited := EditReview(reviews, id, text, score);
    forall i | 0 <= i < |reviews|
      ensures ValidScore(edited[i].score)
    {
      assert reviews[i] in reviews;
    }
    EditKeepsReviewsValid(reviews, users, titles, edited);
    forall x | x in edited
      ensures x.id < nextId
    {
      var i :| 0 <= i < |edited| && edited[i] == x;
      assert reviews[i] in reviews;
    }
  }

  // ---------------------------------------------------------------------------
  // Delete policies as functions on the tables
  // ---------------------------------------------------------------------------

  /** SET_NULL: titles of the deleted category lose their category. */
  function ClearCategory(titles: map<Id, Title>, category: Id): (r: map<Id, Title>)
    ensures r.Keys == titles.Keys
    ensures forall t | t in r ::
      r[t] == if titles[t].category == Some(category) then titles[t].(category := None) else titles[t]
  {
    map t | t in titles :: if titles[t].category == Some(category) then titles[t].(category := None) else titles[t]
  }

  /** The many-to-many link rows of a deleted genre go with it. */
  function DropGenre(titles: map<Id, Title>, genre: Id): (r: map<Id, Title>)
    ensures r.Keys == titles.Keys
    ensures forall t | t in r :: r[t] == titles[t].(genres := titles[t].genres - {genre})
  {
    map t | t in titles :: titles[t].(genres := titles[t].genres - {genre})
  }

  function NotOfTitle(title: Id): Review -> bool { (r: Review) => r.title != title }
  function NotById(id: Id): Review -> bool { (r: Review) => r.id != id }
  function NotByAuthor(author: Id): Review -> bool { (r: Review) => r.author != author }

  /** Comments that survive the removal of the reviews `gone` and, if given, of one author's rows. */
  function CommentSurvives(gone: set<Id>, author: Option<Id>): Comment -> bool {
    (c: Comment) => c.review !in gone && (author.Some? ==> c.author != author.value)
  }

  /** The ids of the rows `keep` rejects. */
  function RemovedIds(reviews: seq<Review>, keep: Review -> bool): set<Id> {
    set r | r in reviews && !keep(r) :: r.id
  }

  /** After a review cascade the surviving comments still point at surviving reviews. */
  lemma CascadeKeepsCommentsResolving(comments: seq<Comment>, reviews: seq<Review>, keep: Review -> bool, author: Option<Id>)
    requires forall c | c in comments :: c.review in ReviewIds(reviews)
    ensures forall c | c in Filter(comments, CommentSurvives(RemovedIds(reviews, keep), author)) ::
      c.review in ReviewIds(Filter(reviews, keep))
  {
    var gone := RemovedIds(reviews, keep);
    forall c | c in Filter(comments, CommentSurvives(gone, author))
      ensures c.review in ReviewIds(Filter(reviews, keep))
    {
      assert c in comments && CommentSurvives(gone, author)(c);
      var r :| r in reviews && r.id == c.review;
      assert keep(r);
      assert r in Filter(reviews, keep);
    }
  }

  /**
   * A review cascade (the rows `keep` rejects go, and so do their comments and,
   * if given, one author's comments) leaves valid rows behind, provided every
   * surviving row still points at a user and a title that remain.
   */
  lemma CascadeKeepsRowsValid(
    users: map<Id, User>, titles: map<Id, Title>, reviews: seq<Review>, comments: seq<Comment>,
    users': map<Id, User>, titles': map<Id, Title>, keep: Review -> bool, author: Option<Id>)
    requires ReviewsValid(reviews, users, titles) && CommentsValid(comments, users, reviews)
    requires forall r | r in reviews && keep(r) :: r.author in users' && r.title in titles'
    requires forall c | c in comments && (author.Some? ==> c.author != author.value) :: c.author in users'
    ensures ReviewsValid(Filter(reviews, keep), users', titles')
    ensures CommentsValid(Filter(comments, CommentSurvives(RemovedIds(reviews, keep), author)), users', Filter(reviews, keep))
  {
    var survives := CommentSurvives(RemovedIds(reviews, keep), author);
    FilterKeepsDistinct(reviews, keep, ReviewKey);
    FilterKeepsDistinct(reviews, keep, AuthorTitle);
    FilterKeepsDistinct(comments, survives, CommentKey);
    CascadeKeepsCommentsResolving(comments, reviews, keep, author);
  }

  /** Deleting a title and cascading to its reviews and their comments keeps the tables valid. */
  lemma DeleteTitleKeepsTablesValid(
    users: map<Id, User>, categories: map<Id, Category>, genres: map<Id, Genre>, titles: map<Id, Title>,
    reviews: seq<Review>, comments: seq<Comment>, currentYear: int, nextId: nat, title: Id)
    requires TablesValid(users, categories, genres, titles, reviews, comments, currentYear, nextId)
    ensures TablesValid(users, categories, genres, titles - {title}, Filter(reviews, NotOfTitle(title)),
      Filter(comments, CommentSurvives(RemovedIds(reviews, NotOfTitle(title)), None)), currentYear, nextId)
  {
    CascadeKeepsRowsValid(users, titles, reviews, comments, users, titles - {title}, NotOfTitle(title), None);
  }

  /** Deleting a review and its comments keeps the tables valid. */
  lemma DeleteReviewKeepsTablesValid(
    users: map<Id, User>, categories: map<Id, Category>, genres: map<Id, Genre>, titles: map<Id, Title>,
    reviews: seq<Review>, comments: seq<Comment>, currentYear: int, nextId: nat, id: Id)
    requires TablesValid(users, categories, genres, titles, reviews, comments, currentYear, nextId)
    ensures TablesValid(users, categories, genres, titles, Filter(reviews, NotById(id)),
      Filter(comments, CommentSurvives(RemovedIds(reviews, NotById(id)), None)), currentYear, nextId)
  {
    CascadeKeepsRowsValid(users, titles, reviews, comments, users, titles, NotById(id), None);
  }

  /** Deleting a user with the user's reviews and comments, and the comments on those reviews, keeps the tables valid. */
  lemma DeleteUserKeepsTablesValid(
    users: map<Id, User>, categories: map<Id, Category>, genres: map<Id, Genre>, titles: map<Id, Title>,
    reviews: seq<Review>, comments: seq<Comment>, currentYear: int, nextId: nat, user: Id)
    requires TablesValid(users, categories, genres, titles, reviews, comments, currentYear, nextId)
    ensures TablesValid(users - {user}, categories, genres, titles, Filter(reviews, NotByAuthor(user)),
      Filter(comments, CommentSurvives(RemovedIds(reviews, NotByAuthor(user)), Some(user))), currentYear, nextId)
  {
    CascadeKeepsRowsValid(users, titles, reviews, comments, users - {user}, titles, NotByAuthor(user), Some(user));
  }

  // ---------------------------------------------------------------------------
  // The store
  // ---------------------------------------------------------------------------

  datatype StoreError = Invalid | MissingReference | Conflict

  /**
   * Inserts a category or genre row under `id`: the name and slug must pass
   * the validators and the slug must be unused in the table.
   */
  function InsertTag(tags: map<Id, Tag>, id: Id, name: string, slug: string): (r: Result<map<Id, Tag>, StoreError>)
    ensures r == Err(Invalid) <==> !ValidTag(Tag(name, slug))
    ensures r == Err(Conflict) <==> ValidTag(Tag(name, slug)) && exists k | k in tags :: tags[k].slug == slug
    ensures r.Ok? <==> ValidTag(Tag(name, slug)) && !exists k | k in tags :: tags[k].slug == slug
    ensures r.Ok? ==> r.value == tags[id := Tag(name, slug)]
    ensures r.Ok? && TagsValid(tags) && id !in tags ==> TagsValid(r.value)
  {
    if !ValidTag(Tag(name, slug)) then Err(Invalid)
    else if exists k | k in tags :: tags[k].slug == slug then Err(Conflict)
    else Ok(tags[id := Tag(name, slug)])
  }

  class Store {
    /** The year the validators take as the latest valid release year. */
    const currentYear: int
    var users: map<Id, User>
    var categories: map<Id, Category>
    var genres: map<Id, Genre>
    var titles: map<Id, Title>
    var reviews: seq<Review>
    var comments: seq<Comment>
    /** Primary keys are handed out from one counter. */
    var nextId: nat

    ghost predicate Valid()
      reads this
    {
      TablesValid(users, categories, genres, titles, reviews, comments, currentYear, nextId)
    }

    constructor (currentYear: int)
      ensures Valid()
      ensures this.currentYear == currentYear
      ensures users == map[] && categories == map[] && genres == map[] && titles == map[]
      ensures reviews == [] && comments == []
    {
      this.currentYear := currentYear;
      users, categories, genres, titles := map[], map[], map[], map[];
      reviews, comments := [], [];
      nextId := 0;
    }

    /** A new user; the role defaults to `user`. */
    method AddUser(username: string, email: string, role: Option<Role>, isSuperuser: bool) returns (r: Result<Id, StoreError>)
      requires Valid()
      modifies this
      ensures Valid()
      ensures categories == old(categories) && genres == old(genres) && titles == old(titles)
      ensures reviews == old(reviews) && comments == old(comments)
      ensures r == Err(Invalid) <==> !ValidUser(User(username, email, DEFAULT_ROLE, isSuperuser))
      ensures r == Err(Conflict) <==> (ValidUser(User(username, email, DEFAULT_ROLE, isSuperuser))
        && exists u | u in old(users) :: old(users)[u].username == username || old(users)[u].email == email)
      ensures r.Ok? <==> (ValidUser(User(username, email, DEFAULT_ROLE, isSuperuser))
        && !exists u | u in old(users) :: old(users)[u].username == username || old(users)[u].email == email)
      ensures r.Ok? ==> (r.value !in old(users)
        && users == old(users)[r.value := User(username, email, role.GetOr(DEFAULT_ROLE), isSuperuser)])
      ensures r.Err? ==> users == old(users)
    {
      if !ValidUser(User(username, email, DEFAULT_ROLE, isSuperuser)) {
        return Err(Invalid);
      }
      if exists u | u in users :: users[u].username == username || users[u].email == email {
        return Err(Conflict);
      }
      var id := nextId;
      users := users[id := User(username, email, role.GetOr(DEFAULT_ROLE), isSuperuser)];
      nextId := nextId + 1;
      r := Ok(id);
    }

    method AddCategory(name: string, slug: string) returns (r: Result<Id, StoreError>)
      requires Valid()
      modifies this
      ensures Valid()
      ensures users == old(users) && genres == old(genres) && titles == old(titles)
      ensures reviews == old(reviews) && comments == old(comments)
      ensures r == Err(Invalid) <==> !ValidTag(Tag(name, slug))
      ensures r == Err(Conflict) <==> (ValidTag(Tag(name, slug))
        && exists k | k in old(categories) :: old(categories)[k].slug == slug)
      ensures r.Ok? <==> (ValidTag(Tag(name, slug))
        && !exists k | k in old(categories) :: old(categories)[k].slug == slug)
      ensures r.Ok? ==> r.value !in old(categories) && categories == old(categories)[r.value := Tag(name, slug)]
      ensures r.Err? ==> categories == old(categories)
    {
      var inserted := InsertTag(categories, nextId, name, slug);
      if inserted.Err? {
        return Err(inserted.error);
      }
      categories := inserted.value;
      r := Ok(nextId);
      nextId := nextId + 1;
    }

    method AddGenre(name: string, slug: string) returns (r: Result<Id, StoreError>)
      requires Valid()
      modifies this
      ensures Valid()
      ensures users == old(users) && categories == old(categories) && titles == old(titles)
      ensures reviews == old(reviews) && comments == old(comments)
      ensures r == Err(Invalid) <==> !ValidTag(Tag(name, slug))
      ensures r == Err(Conflict) <==> (ValidTag(Tag(name, slug))
        && exists k | k in old(genres) :: old(genres)[k].slug == slug)
      ensures r.Ok? <==> (ValidTag(Tag(name, slug))
        && !exists k | k in old(genres) :: old(genres)[k].slug == slug)
      ensures r.Ok? ==> r.value !in old(genres) && genres == old(genres)[r.value := Tag(name, slug)]
      ensures r.Err? ==> genres == old(genres)
    {
      var inserted := InsertTag(genres, nextId, name, slug);
      if inserted.Err? {
        return Err(inserted.error);
      }
      genres := inserted.value;
      r := Ok(nextId);
      nextId := nextId + 1;
    }

    /** A new title has no rating yet. */
    method AddTitle(name: string, year: int, description: Option<string>, category: Option<Id>, genreIds: set<Id>)
      returns (r: Result<Id, StoreError>)
      requires Valid()
      modifies this
      ensures Valid()
      ensures users == old(users) && categories == old(categories) && genres == old(genres)
      ensures reviews == old(reviews) && comments == old(comments)
      ensures r == Err(Invalid) <==> !(ValidName(name) && ValidYear(year, currentYear))
      ensures r == Err(MissingReference) <==> (ValidName(name) && ValidYear(year, currentYear)
        && !TitleRefsResolve(Title(name, year, None, description, category, genreIds), categories, genres))
      ensures r.Ok? <==> (ValidName(name) && ValidYear(year, currentYear)
        && TitleRefsResolve(Title(name, year, None, description, category, genreIds), categories, genres))
      ensures r.Ok? ==> (r.value !in old(titles)
        && titles == old(titles)[r.value := Title(name, year, None, description, category, genreIds)])
      ensures r.Err? ==> titles == old(titles)
    {
      var t := Title(name, year, None, description, category, genreIds);
      if !(ValidName(name) && ValidYear(year, currentYear)) {
        return Err(Invalid);
      }
      if !TitleRefsResolve(t, categories, genres) {
        return Err(MissingReference);
      }
      var id := nextId;
      titles := titles[id := t];
      nextId := nextId + 1;
      r := Ok(id);
    }

    /** A new review; a second review by the same author of the same title is a conflict. */
    method AddReview(author: Id, title: Id, text: string, score: int) returns (r: Result<Id, StoreError>)
      requires Valid()
      modifies this
      ensures Valid()
      ensures users == old(users) && categories == old(categories) && genres == old(genres)
      ensures titles == old(titles) && comments == old(comments)
      ensures r == Err(Invalid) <==> !ValidScore(score)
      ensures r == Err(MissingReference) <==> ValidScore(score) && (author !in users || title !in titles)
      ensures r == Err(Conflict) <==> (ValidScore(score) && author in users && title in titles
        && HasReviewBy(old(reviews), author, title))
      ensures r.Ok? ==> (r.value !in ReviewIds(old(reviews))
        && reviews == old(reviews) + [Review(r.value, text, score, author, title)])
      ensures r.Err? ==> reviews == old(reviews)
    {
      if !ValidScore(score) {
        return Err(Invalid);
      }
      if author !in users || title !in titles {
        return Err(MissingReference);
      }
      if HasReviewBy(reviews, author, title) {
        return Err(Conflict);
      }
      var row := Review(nextId, text, score, author, title);
      DistinctAppend(reviews, row, ReviewKey);
      DistinctAppend(reviews, row, AuthorTitle);
      reviews := reviews + [row];
      nextId := nextId + 1;
      r := Ok(row.id);
    }

    /** Changes the text and score of a review in place; its author and title stay. */
    method UpdateReview(id: Id, text: Option<string>, score: Option<int>) returns (r: Result<Id, StoreError>)
      requires Valid()
      modifies this
      ensures Valid()
      ensures users == old(users) && categories == old(categories) && genres == old(genres)
      ensures titles == old(titles) && comments == old(comments) && |reviews| == |old(reviews)|
      ensures r == Err(Invalid) <==> score.Some? && !ValidScore(score.value)
      ensures r == Err(MissingReference) <==> (score.Some? ==> ValidScore(score.value)) && id !in ReviewIds(old(reviews))
      ensures r.Ok? <==> (score.Some? ==> ValidScore(score.value)) && id in ReviewIds(old(reviews))
      ensures r.Ok? ==> r.value == id
      ensures r.Ok? ==> reviews == EditReview(old(reviews), id, text, score)
      ensures r.Err? ==> reviews == old(reviews)
    {
      if score.Some? && !ValidScore(score.value) {
        return Err(Invalid);
      }
      if id !in ReviewIds(reviews) {
        return Err(MissingReference);
      }
      EditReviewKeepsTablesValid(users, categories, genres, titles, reviews, comments, currentYear, nextId, id, text, score);
      reviews := EditReview(reviews, id, text, score);
      r := Ok(id);
    }

    method AddComment(author: Id, review: Id, text: string) returns (r: Result<Id, StoreError>)
      requires Valid()
      modifies this
      ensures Valid()
      ensures users == old(users) && categories == old(categories) && genres == old(genres)
      ensures titles == old(titles) && reviews == old(reviews)
      ensures r == Err(MissingReference) <==> author !in users || review !in ReviewIds(reviews)
      ensures r.Ok? <==> author in old(users) && review in ReviewIds(old(reviews))
      ensures r.Ok? ==> comments == old(comments) + [Comment(r.value, text, author, review)]
      ensures r.Err? ==> comments == old(comments)
    {
      if author !in users || review !in ReviewIds(reviews) {
        return Err(MissingReference);
      }
      var row := Comment(nextId, text, author, review);
      DistinctAppend(comments, row, CommentKey);
      comments := comments + [row];
      nextId := nextId + 1;
      r := Ok(row.id);
    }

    /** Deleting a category keeps its titles and sets their category to null. */
    method DeleteCategory(category: Id) returns (found: bool)
      requires Valid()
      modifies this
      ensures Valid()
      ensures found <==> category in old(categories)
      ensures users == old(users) && genres == old(genres) && reviews == old(reviews) && comments == old(comments)
      ensures categories == old(categories) - {category}
      ensures titles == if found then ClearCategory(old(titles), category) else old(titles)
    {
      found := category in categories;
      if found {
        categories := categories - {category};
        titles := ClearCategory(titles, category);
      }
    }

    /** Deleting a genre removes it from every title's genres. */
    method DeleteGenre(genre: Id) returns (found: bool)
      requires Valid()
      modifies this
      ensures Valid()
      ensures found <==> genre in old(genres)
      ensures users == old(users) && categories == old(categories) && reviews == old(reviews) && comments == old(comments)
      ensures genres == old(genres) - {genre}
      ensures titles == if found then DropGenre(old(titles), genre) else old(titles)
    {
      found := genre in genres;
      if found {
        genres := genres - {genre};
        titles := DropGenre(titles, genre);
      }
    }

    /** Deleting a title deletes its reviews and, with them, their comments. */
    method DeleteTitle(title: Id) returns (found: bool)
      requires Valid()
      modifies this
      ensures Valid()
      ensures found <==> title in old(titles)
      ensures users == old(users) && categories == old(categories) && genres == old(genres)
      ensures titles == old(titles) - {title}
      ensures found ==> reviews == Filter(old(reviews), NotOfTitle(title))
      ensures found ==> comments == Filter(old(comments), CommentSurvives(RemovedIds(old(reviews), NotOfTitle(title)), None))
      ensures !found ==> reviews == old(reviews) && comments == old(comments)
    {
      found := title in titles;
      if found {
        var keep := NotOfTitle(title);
        var gone := RemovedIds(reviews, keep);
        var survives := CommentSurvives(gone, None);
        DeleteTitleKeepsTablesValid(users, categories, genres, titles, reviews, comments, currentYear, nextId, title);
        titles := titles - {title};
        reviews := Filter(reviews, keep);
        comments := Filter(comments, survives);
      }
    }

    /** Deleting a review deletes its comments. */
    method DeleteReview(id: Id) returns (found: bool)
      requires Valid()
      modifies this
      ensures Valid()
      ensures found <==> id in ReviewIds(old(reviews))
      ensures users == old(users) && categories == old(categories) && genres == old(genres) && titles == old(titles)
      ensures found ==> reviews == Filter(old(reviews), NotById(id))
      ensures found ==> comments == Filter(old(comments), CommentSurvives(RemovedIds(old(reviews), NotById(id)), None))
      ensures !found ==> reviews == old(reviews) && comments == old(comments)
    {
      found := id in ReviewIds(reviews);
      if found {
        var keep := NotById(id);
        var gone := RemovedIds(reviews, keep);
        var survives := CommentSurvives(gone, None);
        DeleteReviewKeepsTablesValid(users, categories, genres, titles, reviews, comments, currentYear, nextId, id);
        reviews := Filter(reviews, keep);
        comments := Filter(comments, survives);
      }
    }

    /** Deleting a user deletes the user's reviews and comments, and the comments on those reviews. */
    method DeleteUser(user: Id) returns (found: bool)
      requires Valid()
      modifies this
      ensures Valid()
      ensures found <==> user in old(users)
      ensures categories == old(categories) && genres == old(genres) && titles == old(titles)
      ensures users == old(users) - {user}
      ensures found ==> reviews == Filter(old(reviews), NotByAuthor(user))
      ensures found ==> comments == Filter(old(comments), CommentSurvives(RemovedIds(old(reviews), NotByAuthor(user)), Some(user)))
      ensures !found ==> reviews == old(reviews) && comments == old(comments)
    {
      found := user in users;
      if found {
        var keep := NotByAuthor(user);
        var gone := RemovedIds(reviews, keep);
        var survives := CommentSurvives(gone, Some(user));
        DeleteUserKeepsTablesValid(users, categories, genres, titles, reviews, comments, currentYear, nextId, user);
        users := users - {user};
        reviews := Filter(reviews, keep);
        comments := Filter(comments, survives);
      }
    }
  }
}
