/**
 * The view handlers of the API: category edits that are always refused, the
 * title list filter and serializer choice, and the review and comment handlers
 * that read and change the store.
 *
 * A review handler recomputes the title's rating BEFORE it saves or deletes
 * the review, so the stored rating is the mean of the scores as they were
 * before the change. The handlers whose names end in `RatedAfterSave` or
 * `RatedAfterDelete` recompute afterwards instead; they are the corrected
 * order and are not what the views do.
 */
module Views {
  import opened Wrappers
  import opened Text
  import opened Models
  import opened Requests

  datatype Response = Response(status: nat, body: string)

  // ---------------------------------------------------------------------------
  // Refused edits
  // ---------------------------------------------------------------------------

  /** CategoryViewSet.update (`partial` false) and partial_update (`partial` true): always 405, nothing is read or saved. */
  function CategoryUpdate(partial: bool): (r: Response)
    ensures r.status == 405 && r.body == "Method Not Allowed"
  {
    Response(405, "Method Not Allowed")
  }

  /**
   * TitleViewSetDetail.perform_update: returns a 405 response and never saves
   * the serializer. The update handler that calls it discards what it returns.
   */
  function TitlePerformUpdate(): (r: Response)
    ensures r.status == 405 && r.body == "Method Not Allowed"
  {
    Response(405, "Method Not Allowed")
  }

  /** The status of an update of the title detail, and the title shown in the body. */
  datatype TitleUpdateResponse = TitleUpdateResponse(status: nat, shown: Option<Title>)

  /**
   * A PUT or PATCH of the title detail, as the inherited update handler runs
   * it: the title is looked up (404 when missing) and the request data
   * validated (400 when invalid). Then perform_update runs, and the handler
   * drops the 405 response it returns. The answer is 200 with the title as it
   * is stored, because nothing was saved. `dataValid` stands for the title
   * serializer's verdict on the request data.
   */
  function TitleUpdate(titles: map<Id, Title>, title: Id, dataValid: bool): (r: TitleUpdateResponse)
    ensures r.status == 404 <==> title !in titles
    ensures r.status == 400 <==> title in titles && !dataValid
    ensures r.status == 200 <==> title in titles && dataValid
    ensures r.status == 200 ==> r.shown == Some(titles[title])
  {
    if title !in titles then TitleUpdateResponse(404, None)
    else if !dataValid then TitleUpdateResponse(400, None)
    else TitleUpdateResponse(200, Some(titles[title]))
  }

  /** The update with perform_update's refusal returned rather than dropped. */
  function TitleUpdateRefused(titles: map<Id, Title>, title: Id, dataValid: bool): (r: TitleUpdateResponse)
    ensures r.status == 404 <==> title !in titles
    ensures r.status == 400 <==> title in titles && !dataValid
    ensures r.status == 405 <==> title in titles && dataValid
    ensures r.shown == None
  {
    if title !in titles then TitleUpdateResponse(404, None)
    else if !dataValid then TitleUpdateResponse(400, None)
    else TitleUpdateResponse(TitlePerformUpdate().status, None)
  }

  /** A valid update of an existing title is answered 200, not with the 405 perform_update builds. */
  lemma TitleUpdateNotRefused(titles: map<Id, Title>, title: Id)
    requires title in titles
    ensures TitleUpdate(titles, title, true).status == 200
    ensures TitleUpdateRefused(titles, title, true).status == TitlePerformUpdate().status == 405
  {
  }

  // ---------------------------------------------------------------------------
  // Title list
  // ---------------------------------------------------------------------------

  datatype TitleSerializerKind = TitleSerializer | TitleCreateSerializer

  /** TitleViewSetListCreate.get_serializer_class */
  function TitleSerializerFor(m: HttpMethod): (k: TitleSerializerKind)
    ensures k == TitleCreateSerializer <==> m == POST
    ensures k == TitleSerializer <==> m != POST
  {
    if m == POST then TitleCreateSerializer else TitleSerializer
  }

  /**
   * The query parameters of the title list. An empty string stands for a
   * parameter that is missing or empty; both are skipped by the view.
   */
  datatype TitleQuery = TitleQuery(category: string, genre: string, name: string, year: Option<int>)

  const NO_PARAMETERS: TitleQuery := TitleQuery("", "", "", None)

  /** `category__slug=slug` */
  predicate InCategory(t: Title, categories: map<Id, Category>, slug: string) {
    t.category.Some? && t.category.value in categories && categories[t.category.value].slug == slug
  }

  /** `genre__slug=slug` */
  predicate HasGenre(t: Title, genres: map<Id, Genre>, slug: string) {
    exists g | g in t.genres && g in genres :: genres[g].slug == slug
  }

  /** `name__icontains=part` */
  predicate NameContains(t: Title, part: string) {
    IsSubstring(Lower(part), Lower(t.name))
  }

  /** The reference meaning of a query: every given parameter holds of the title. */
  predicate MatchesQuery(t: Title, categories: map<Id, Category>, genres: map<Id, Genre>, q: TitleQuery) {
    && (q.category == "" || InCategory(t, categories, q.category))
    && (q.genre == "" || HasGenre(t, genres, q.genre))
    && (q.name == "" || NameContains(t, q.name))
    && (q.year.None? || t.year == q.year.value)
  }

  /** One `.filter(...)` step on a queryset of title ids. */
  function Narrow(qs: set<Id>, titles: map<Id, Title>, keep: Title -> bool): (r: set<Id>)
    ensures r <= qs
    ensures forall t :: t in r <==> t in qs && t in titles && keep(titles[t])
  {
    set t | t in qs && t in titles && keep(titles[t])
  }

  /**
   * TitleViewSetListCreate.get_queryset: starts from every title and narrows
   * once per non-empty parameter; the result is exactly the titles that match
   * every given parameter.
   */
  function TitleQueryset(titles: map<Id, Title>, categories: map<Id, Category>, genres: map<Id, Genre>, q: TitleQuery)
    : (r: set<Id>)
    ensures r <= titles.Keys
    ensures forall t :: t in r <==> t in titles && MatchesQuery(titles[t], categories, genres, q)
  {
    var all := titles.Keys;
    var byCategory := if q.category != "" then Narrow(all, titles, (t: Title) => InCategory(t, categories, q.category)) else all;
    var byGenre := if q.genre != "" then Narrow(byCategory, titles, (t: Title) => HasGenre(t, genres, q.genre)) else byCategory;
    var byName := if q.name != "" then Narrow(byGenre, titles, (t: Title) => NameContains(t, q.name)) else byGenre;
    if q.year.Some? then Narrow(byName, titles, (t: Title) => t.year == q.year.value) else byName
  }

  /** Without parameters the list holds every title. */
  lemma NoParametersListsAll(titles: map<Id, Title>, categories: map<Id, Category>, genres: map<Id, Genre>)
    ensures TitleQueryset(titles, categories, genres, NO_PARAMETERS) == titles.Keys
  {
  }

  /** `strong` gives every parameter `weak` gives: its result is a subset of `weak`'s. */
  predicate Refines(strong: TitleQuery, weak: TitleQuery) {
    && (weak.category == "" || strong.category == weak.category)
    && (weak.genre == "" || strong.genre == weak.genre)
    && (weak.name == "" || strong.name == weak.name)
    && (weak.year.None? || strong.year == weak.year)
  }

  /** Adding parameters only narrows the list. */
  lemma MoreParametersNarrow(titles: map<Id, Title>, categories: map<Id, Category>, genres: map<Id, Genre>,
                             strong: TitleQuery, weak: TitleQuery)
    requires Refines(strong, weak)
    ensures TitleQueryset(titles, categories, genres, strong) <= TitleQueryset(titles, categories, genres, weak)
  {
  }

  // ---------------------------------------------------------------------------
  // Reviews
  // ---------------------------------------------------------------------------

  /**
   * Why a handler stops. `DoesNotExist` is the unhandled exception of a direct
   * lookup of the URL's title or review; `NotFound` is the 404 of an object
   * lookup in the list; `Rejected` is the store refusing the row.
   */
  datatype Failure = DoesNotExist | NotFound | Rejected(error: StoreError)

  function OfTitle(title: Id): Review -> bool { (r: Review) => r.title == title }

  /** ReviewViewSet.get_queryset: the reviews of the URL's title. */
  function ReviewQueryset(store: Store, title: Id): (r: Result<seq<Review>, Failure>)
    reads store
    ensures r.Err? <==> title !in store.titles
    ensures r.Err? ==> r.error == DoesNotExist
    ensures r.Ok? ==> forall x :: x in r.value <==> x in store.reviews && x.title == title
  {
    if title !in store.titles then Err(DoesNotExist) else Ok(Filter(store.reviews, OfTitle(title)))
  }

  /** The title with its rating set to the mean of the scores of its reviews in `reviews`. */
  function Rated(t: Title, reviews: seq<Review>, title: Id): Title {
    t.(rating := Mean(ScoresOf(reviews, title)))
  }

  /**
   * ReviewViewSet._update_title_rating: the rating becomes the mean of the
   * title's current review scores (null without reviews) and is saved.
   */
  method UpdateTitleRating(store: Store, title: Id) returns (r: Result<Title, Failure>)
    requires store.Valid()
    modifies store
    ensures store.Valid()
    ensures store.users == old(store.users) && store.categories == old(store.categories)
    ensures store.genres == old(store.genres) && store.reviews == old(store.reviews)
    ensures store.comments == old(store.comments) && store.nextId == old(store.nextId)
    ensures r.Err? <==> title !in old(store.titles)
    ensures r.Err? ==> r.error == DoesNotExist && store.titles == old(store.titles)
    ensures r.Ok? ==> (r.value == Rated(old(store.titles)[title], store.reviews, title)
                       && store.titles == old(store.titles)[title := r.value])
  {
    if title !in store.titles {
      return Err(DoesNotExist);
    }
    var scores := ScoresOf(store.reviews, title);
    ScoresOfValid(store.reviews, title);
    MeanIsValidRating(scores);
    var t := store.titles[title].(rating := Mean(scores));
    store.titles := store.titles[title := t];
    r := Ok(t);
  }

  /**
   * ReviewViewSet.perform_create: the rating is recomputed first, without the
   * new review, and then the review is saved with the current user as author
   * and the URL's title as title. A duplicate is refused by the store after
   * the rating has been saved.
   */
  method CreateReview(store: Store, author: Id, title: Id, text: string, score: int) returns (r: Result<Id, Failure>)
    requires store.Valid()
    requires ValidScore(score) // validated by the serializer before perform_create runs
    modifies store
    ensures store.Valid()
    ensures store.users == old(store.users) && store.categories == old(store.categories)
    ensures store.genres == old(store.genres) && store.comments == old(store.comments)
    ensures r == Err(DoesNotExist) <==> title !in old(store.titles)
    ensures title !in old(store.titles) ==> store.titles == old(store.titles)
    ensures title in old(store.titles) ==>
      store.titles == old(store.titles)[title := Rated(old(store.titles)[title], old(store.reviews), title)]
    ensures r == Err(Rejected(MissingReference)) <==> title in old(store.titles) && author !in old(store.users)
    ensures r == Err(Rejected(Conflict)) <==>
      (title in old(store.titles) && author in old(store.users) && HasReviewBy(old(store.reviews), author, title))
    ensures r.Ok? <==>
      (title in old(store.titles) && author in old(store.users) && !HasReviewBy(old(store.reviews), author, title))
    ensures r.Ok? ==> store.reviews == old(store.reviews) + [Review(r.value, text, score, author, title)]
    ensures r.Err? ==> store.reviews == old(store.reviews)
  {
    var rated := UpdateTitleRating(store, title);
    if rated.Err? {
      return Err(rated.error);
    }
    var saved := store.AddReview(author, title, text, score);
    if saved.Err? {
      assert saved.error == MissingReference || saved.error == Conflict;
      return Err(Rejected(saved.error));
    }
    r := Ok(saved.value);
  }

  /** The review `id` among the title's reviews, as the object lookup of the list finds it. */
  predicate ReviewInTitle(reviews: seq<Review>, id: Id, title: Id) {
    exists x | x in reviews :: x.id == id && x.title == title
  }

  /**
   * ReviewViewSet update: the review is looked up among the title's reviews
   * (with the review id in the URL taken as the lookup key `pk`),
   * then perform_update recomputes the rating, still counting the old score,
   * and saves the new text and score.
   */
  method UpdateReview(store: Store, title: Id, id: Id, text: Option<string>, score: Option<int>) returns (r: Result<Id, Failure>)
    requires store.Valid()
    requires score.Some? ==> ValidScore(score.value) // validated by the serializer
    modifies store
    ensures store.Valid()
    ensures store.users == old(store.users) && store.categories == old(store.categories)
    ensures store.genres == old(store.genres) && store.comments == old(store.comments)
    ensures r == Err(DoesNotExist) <==> title !in old(store.titles)
    ensures r == Err(NotFound) <==> title in old(store.titles) && !ReviewInTitle(old(store.reviews), id, title)
    ensures r.Ok? <==> title in old(store.titles) && ReviewInTitle(old(store.reviews), id, title)
    ensures r.Err? ==> store.titles == old(store.titles) && store.reviews == old(store.reviews)
    ensures r.Ok? ==> (r.value == id
                       && store.titles == old(store.titles)[title := Rated(old(store.titles)[title], old(store.reviews), title)])
    ensures r.Ok? ==> store.reviews == EditReview(old(store.reviews), id, text, score)
  {
    if title !in store.titles {
      return Err(DoesNotExist);
    }
    if !ReviewInTitle(store.reviews, id, title) {
      return Err(NotFound);
    }
    ghost var x :| x in store.reviews && x.id == id && x.title == title;
    assert id in ReviewIds(store.reviews);
    var rated := UpdateTitleRating(store, title);
    var saved := store.UpdateReview(id, text, score);
    r := Ok(id);
  }

  /**
   * ReviewViewSet destroy: the review is looked up among the title's reviews
   * (with the review id in the URL taken as the lookup key `pk`),
   * then perform_destroy recomputes the rating, still counting the score about
   * to go, and deletes the review together with its comments.
   */
  method DestroyReview(store: Store, title: Id, id: Id) returns (r: Result<Id, Failure>)
    requires store.Valid()
    modifies store
    ensures store.Valid()
    ensures store.users == old(store.users) && store.categories == old(store.categories)
    ensures store.genres == old(store.genres)
    ensures r == Err(DoesNotExist) <==> title !in old(store.titles)
    ensures r == Err(NotFound) <==> title in old(store.titles) && !ReviewInTitle(old(store.reviews), id, title)
    ensures r.Ok? <==> title in old(store.titles) && ReviewInTitle(old(store.reviews), id, title)
    ensures r.Err? ==> (store.titles == old(store.titles) && store.reviews == old(store.reviews)
                        && store.comments == old(store.comments))
    ensures r.Ok? ==> (r.value == id
                       && store.titles == old(store.titles)[title := Rated(old(store.titles)[title], old(store.reviews), title)])
    ensures r.Ok? ==> store.reviews == Filter(old(store.reviews), NotById(id))
    ensures r.Ok? ==> store.comments == Filter(old(store.comments), CommentSurvives(RemovedIds(old(store.reviews), NotById(id)), None))
  {
    if title !in store.titles {
      return Err(DoesNotExist);
    }
    if !ReviewInTitle(store.reviews, id, title) {
      return Err(NotFound);
    }
    var rated := UpdateTitleRating(store, title);
    var found := store.DeleteReview(id);
    r := Ok(id);
  }

  /** The rating stored by CreateReview leaves out the review just created: the first review leaves it null. */
  lemma FirstReviewLeavesRatingNull(reviews: seq<Review>, created: Review)
    requires forall x | x in reviews :: x.title != created.title
    ensures Mean(ScoresOf(reviews, created.title)) == None
    ensures Mean(ScoresOf(reviews + [created], created.title)) == Some(created.score)
  {
    ScoresOfEmpty(reviews, created.title);
    ScoresOfAppend(reviews, created, created.title);
    assert ScoresOf(reviews + [created], created.title) == [created.score];
    assert Sum([created.score]) == created.score + Sum([]);
  }

  /** The rating stored by DestroyReview still counts the deleted review: deleting the last one leaves it set. */
  lemma LastReviewDeletedLeavesRatingSet(reviews: seq<Review>, deleted: Review)
    requires deleted in reviews
    requires forall x | x in reviews && x.title == deleted.title :: x.id == deleted.id
    ensures Mean(ScoresOf(reviews, deleted.title)).Some?
    ensures Mean(ScoresOf(Filter(reviews, NotById(deleted.id)), deleted.title)) == None
  {
    ScoresOfEmpty(reviews, deleted.title);
    ScoresOfEmpty(Filter(reviews, NotById(deleted.id)), deleted.title);
  }

  /**
   * The intended order for creation: look the title up, save the review, then
   * recompute, so the rating counts the new review.
   */
  method CreateReviewRatedAfterSave(store: Store, author: Id, title: Id, text: string, score: int) returns (r: Result<Id, Failure>)
    requires store.Valid()
    requires ValidScore(score)
    modifies store
    ensures store.Valid()
    ensures store.users == old(store.users) && store.categories == old(store.categories)
    ensures store.genres == old(store.genres) && store.comments == old(store.comments)
    ensures r == Err(DoesNotExist) <==> title !in old(store.titles)
    ensures r == Err(Rejected(MissingReference)) <==> title in old(store.titles) && author !in old(store.users)
    ensures r == Err(Rejected(Conflict)) <==>
      (title in old(store.titles) && author in old(store.users) && HasReviewBy(old(store.reviews), author, title))
    ensures r.Ok? <==>
      (title in old(store.titles) && author in old(store.users) && !HasReviewBy(old(store.reviews), author, title))
    ensures r.Ok? ==> store.reviews == old(store.reviews) + [Review(r.value, text, score, author, title)]
    ensures r.Ok? ==> store.titles == old(store.titles)[title := Rated(old(store.titles)[title], store.reviews, title)]
    ensures r.Ok? ==> store.titles[title].rating == Mean(ScoresOf(store.reviews, title))
    ensures r.Err? ==> store.reviews == old(store.reviews) && store.titles == old(store.titles)
  {
    if title !in store.titles {
      return Err(DoesNotExist);
    }
    var saved := store.AddReview(author, title, text, score);
    if saved.Err? {
      assert saved.error == MissingReference || saved.error == Conflict;
      return Err(Rejected(saved.error));
    }
    var rated := UpdateTitleRating(store, title);
    r := Ok(saved.value);
  }

  /** The rating stored by UpdateReview still holds the old score: a title's only review edited from 3 to 9 keeps 3. */
  lemma EditedScoreNotCounted(text: string, author: Id, title: Id)
    ensures Mean(ScoresOf([Review(0, text, 3, author, title)], title)) == Some(3)
    ensures Mean(ScoresOf(EditReview([Review(0, text, 3, author, title)], 0, None, Some(9)), title)) == Some(9)
  {
    var edited := EditReview([Review(0, text, 3, author, title)], 0, None, Some(9));
    assert edited == [Review(0, text, 9, author, title)];
    assert ScoresOf(edited, title) == [9] + ScoresOf([], title);
    assert ScoresOf([Review(0, text, 3, author, title)], title) == [3] + ScoresOf([], title);
    assert Sum([9]) == 9 + Sum([]);
    assert Sum([3]) == 3 + Sum([]);
  }

  /** The intended order for an update: save the new text and score, then recompute, so the rating counts the new score. */
  method UpdateReviewRatedAfterSave(store: Store, title: Id, id: Id, text: Option<string>, score: Option<int>)
    returns (r: Result<Id, Failure>)
    requires store.Valid()
    requires score.Some? ==> ValidScore(score.value)
    modifies store
    ensures store.Valid()
    ensures store.users == old(store.users) && store.categories == old(store.categories)
    ensures store.genres == old(store.genres) && store.comments == old(store.comments)
    ensures r == Err(DoesNotExist) <==> title !in old(store.titles)
    ensures r == Err(NotFound) <==> title in old(store.titles) && !ReviewInTitle(old(store.reviews), id, title)
    ensures r.Ok? <==> title in old(store.titles) && ReviewInTitle(old(store.reviews), id, title)
    ensures r.Err? ==> store.titles == old(store.titles) && store.reviews == old(store.reviews)
    ensures r.Ok? ==> r.value == id && store.reviews == EditReview(old(store.reviews), id, text, score)
    ensures r.Ok? ==> store.titles == old(store.titles)[title := Rated(old(store.titles)[title], store.reviews, title)]
    ensures r.Ok? ==> store.titles[title].rating == Mean(ScoresOf(store.reviews, title))
  {
    if title !in store.titles {
      return Err(DoesNotExist);
    }
    if !ReviewInTitle(store.reviews, id, title) {
      return Err(NotFound);
    }
    ghost var x :| x in store.reviews && x.id == id && x.title == title;
    assert id in ReviewIds(store.reviews);
    var saved := store.UpdateReview(id, text, score);
    var rated := UpdateTitleRating(store, title);
    r := Ok(id);
  }

  /** The intended order for deletion: delete the review, then recompute, so the rating no longer counts it. */
  method DestroyReviewRatedAfterDelete(store: Store, title: Id, id: Id) returns (r: Result<Id, Failure>)
    requires store.Valid()
    modifies store
    ensures store.Valid()
    ensures store.users == old(store.users) && store.categories == old(store.categories)
    ensures store.genres == old(store.genres)
    ensures r == Err(DoesNotExist) <==> title !in old(store.titles)
    ensures r == Err(NotFound) <==> title in old(store.titles) && !ReviewInTitle(old(store.reviews), id, title)
    ensures r.Ok? <==> title in old(store.titles) && ReviewInTitle(old(store.reviews), id, title)
    ensures r.Err? ==> (store.titles == old(store.titles) && store.reviews == old(store.reviews)
                        && store.comments == old(store.comments))
    ensures r.Ok? ==> r.value == id && store.reviews == Filter(old(store.reviews), NotById(id))
    ensures r.Ok? ==> store.comments == Filter(old(store.comments), CommentSurvives(RemovedIds(old(store.reviews), NotById(id)), None))
    ensures r.Ok? ==> store.titles == old(store.titles)[title := Rated(old(store.titles)[title], store.reviews, title)]
    ensures r.Ok? ==> store.titles[title].rating == Mean(ScoresOf(store.reviews, title))
  {
    if title !in store.titles {
      return Err(DoesNotExist);
    }
    if !ReviewInTitle(store.reviews, id, title) {
      return Err(NotFound);
    }
    var found := store.DeleteReview(id);
    var rated := UpdateTitleRating(store, title);
    r := Ok(id);
  }

  // ---------------------------------------------------------------------------
  // Comments
  // ---------------------------------------------------------------------------

  function OfReview(review: Id): Comment -> bool { (c: Comment) => c.review == review }

  /** CommentViewSet.get_queryset: the comments of the URL's review; the URL's title plays no part. */
  function CommentQueryset(store: Store, review: Id): (r: Result<seq<Comment>, Failure>)
    reads store
    ensures r.Err? <==> review !in ReviewIds(store.reviews)
    ensures r.Err? ==> r.error == DoesNotExist
    ensures r.Ok? ==> forall c :: c in r.value <==> c in store.comments && c.review == review
  {
    if review !in ReviewIds(store.reviews) then Err(DoesNotExist) else Ok(Filter(store.comments, OfReview(review)))
  }

  /** CommentViewSet.perform_create: the comment gets the current user as author and the URL's review. */
  method CreateComment(store: Store, author: Id, review: Id, text: string) returns (r: Result<Id, Failure>)
    requires store.Valid()
    modifies store
    ensures store.Valid()
    ensures store.users == old(store.users) && store.categories == old(store.categories)
    ensures store.genres == old(store.genres) && store.titles == old(store.titles) && store.reviews == old(store.reviews)
    ensures r == Err(DoesNotExist) <==> review !in ReviewIds(old(store.reviews))
    ensures r == Err(Rejected(MissingReference)) <==> review in ReviewIds(old(store.reviews)) && author !in old(store.users)
    ensures r.Ok? <==> review in ReviewIds(old(store.reviews)) && author in old(store.users)
    ensures r.Ok? ==> store.comments == old(store.comments) + [Comment(r.value, text, author, review)]
    ensures r.Err? ==> store.comments == old(store.comments)
  {
    if review !in ReviewIds(store.reviews) {
      return Err(DoesNotExist);
    }
    var saved := store.AddComment(author, review, text);
    if saved.Err? {
      return Err(Rejected(saved.error));
    }
    r := Ok(saved.value);
  }
}
